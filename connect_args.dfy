/** The argument validator of the JavaScript `connect` entry point: it
    classifies up to four arguments by type, rejects duplicates, requires a
    program name and a callback, and checks the order program name, verbose,
    config files. */
module ConnectArgs {
  import opened LircTypes

  /** The type tests the validator applies, in its order. */
  datatype Kind = KString | KBool | KFunction | KArray | KOther

  function KindOf(v: JsValue): Kind
  {
    match v
    case JsString(_) => KString
    case JsBool(_) => KBool
    case JsFunction(_) => KFunction
    case JsArray(_) => KArray
    case JsOther => KOther
  }

  /** The number of arguments of kind k. */
  function Count(args: seq<JsValue>, k: Kind): nat
  {
    if args == [] then 0
    else Count(args[..|args| - 1], k) + (if KindOf(args[|args| - 1]) == k then 1 else 0)
  }

  /** The number of arguments that claim the config role: every string after
      the first one, and every array. */
  function ConfigCount(args: seq<JsValue>): nat
  {
    (if Count(args, KString) > 0 then Count(args, KString) - 1 else 0) + Count(args, KArray)
  }

  /** The role an argument plays: the first string names the program, a later
      string or an array gives the config files; values of any other type are
      ignored. */
  datatype Role = ProgramName | Verbose | Config | Callback | Ignored

  function RoleAt(args: seq<JsValue>, i: nat): Role
    requires i < |args|
  {
    match args[i]
    case JsString(_) => if Count(args[..i], KString) == 0 then ProgramName else Config
    case JsBool(_) => Verbose
    case JsFunction(_) => Callback
    case JsArray(_) => Config
    case JsOther => Ignored
  }

  /** Position of a role in the required order; 0 for roles without one. */
  function Rank(r: Role): nat
  {
    match r
    case ProgramName => 1
    case Verbose => 2
    case Config => 3
    case _ => 0
  }

  /** Program name, verbose flag and config files appear in that order. */
  ghost predicate InOrder(args: seq<JsValue>)
  {
    forall i, j :: 0 <= i < j < |args| && Rank(RoleAt(args, i)) > 0 && Rank(RoleAt(args, j)) > 0 ==>
      Rank(RoleAt(args, i)) < Rank(RoleAt(args, j))
  }

  /** No role is claimed twice. */
  ghost predicate NoDuplicates(args: seq<JsValue>)
  {
    Count(args, KBool) <= 1 && Count(args, KFunction) <= 1 && ConfigCount(args) <= 1
  }

  /** The argument lists the validator accepts. */
  ghost predicate Acceptable(args: seq<JsValue>)
  {
    |args| <= 4 && NoDuplicates(args) &&
    Count(args, KString) >= 1 && Count(args, KFunction) == 1 && InOrder(args)
  }

  /** The argument indices the validator picks. */
  datatype Choice = Choice(program: nat, verbose: Option<nat>, config: Option<nat>, callback: nat)

  datatype Classified = Chosen(choice: Choice) | Rejected(error: Error)

  /** The choice names exactly the positions of the four roles. */
  ghost predicate Fits(args: seq<JsValue>, c: Choice)
  {
    c.program < |args| && c.callback < |args| &&
    (c.verbose.Some? ==> c.verbose.value < |args|) &&
    (c.config.Some? ==> c.config.value < |args|) &&
    forall j :: 0 <= j < |args| ==>
      (RoleAt(args, j) == ProgramName <==> j == c.program) &&
      (RoleAt(args, j) == Verbose <==> c.verbose == Some(j)) &&
      (RoleAt(args, j) == Config <==> c.config == Some(j)) &&
      (RoleAt(args, j) == Callback <==> j == c.callback)
  }

  lemma CountStep(args: seq<JsValue>, i: nat)
    requires i < |args|
    ensures forall k :: Count(args[..i + 1], k) == Count(args[..i], k) + (if KindOf(args[i]) == k then 1 else 0)
  {
    assert args[..i + 1][..i] == args[..i];
  }

  /** Counting over a prefix never gives more than counting over the whole. */
  lemma {:induction false} CountPrefix(args: seq<JsValue>, n: nat)
    requires n <= |args|
    decreases |args| - n
    ensures forall k :: Count(args[..n], k) <= Count(args, k)
    ensures ConfigCount(args[..n]) <= ConfigCount(args)
  {
    if n < |args| {
      CountStep(args, n);
      CountPrefix(args, n + 1);
    } else {
      assert args[..n] == args;
    }
  }

  /** `pos` is the only position below i holding `role`, or -1 if none does. */
  ghost predicate HeldBy(args: seq<JsValue>, i: nat, pos: int, role: Role)
    requires i <= |args|
  {
    (pos != -1 ==> 0 <= pos < i && RoleAt(args, pos) == role) &&
    (forall j :: 0 <= j < i && RoleAt(args, j) == role ==> j == pos)
  }

  /** What the classification loop knows after scanning args[..i]. */
  ghost predicate Scanned(args: seq<JsValue>, i: nat, program: int, verbose: int, config: int, callback: int)
  {
    i <= |args| && NoDuplicates(args[..i]) &&
    (program == -1 <==> Count(args[..i], KString) == 0) && HeldBy(args, i, program, ProgramName) &&
    (verbose == -1 <==> Count(args[..i], KBool) == 0) && HeldBy(args, i, verbose, Verbose) &&
    (config == -1 <==> ConfigCount(args[..i]) == 0) && HeldBy(args, i, config, Config) &&
    (callback == -1 <==> Count(args[..i], KFunction) == 0) && HeldBy(args, i, callback, Callback)
  }

  /** Argument i claims a role already taken. */
  predicate Duplicate(v: JsValue, program: int, verbose: int, config: int, callback: int)
  {
    match v
    case JsString(_) => program != -1 && config != -1
    case JsBool(_) => verbose != -1
    case JsFunction(_) => callback != -1
    case JsArray(_) => config != -1
    case JsOther => false
  }

  /** A duplicate role anywhere makes the whole list unacceptable. */
  lemma ScanRejects(args: seq<JsValue>, i: nat, program: int, verbose: int, config: int, callback: int)
    requires i < |args| && Scanned(args, i, program, verbose, config, callback)
    requires Duplicate(args[i], program, verbose, config, callback)
    ensures !NoDuplicates(args)
  {
    CountStep(args, i);
    CountPrefix(args, i + 1);
  }

  lemma ScanString(args: seq<JsValue>, i: nat, program: int, verbose: int, config: int, callback: int)
    requires i < |args| && Scanned(args, i, program, verbose, config, callback)
    requires args[i].JsString? && !Duplicate(args[i], program, verbose, config, callback)
    ensures program == -1 ==> Scanned(args, i + 1, i, verbose, config, callback)
    ensures program != -1 ==> Scanned(args, i + 1, program, verbose, i, callback)
  {
    CountStep(args, i);
  }

  lemma ScanOther(args: seq<JsValue>, i: nat, program: int, verbose: int, config: int, callback: int)
    requires i < |args| && Scanned(args, i, program, verbose, config, callback)
    requires !args[i].JsString? && !Duplicate(args[i], program, verbose, config, callback)
    ensures args[i].JsBool? ==> Scanned(args, i + 1, program, i, config, callback)
    ensures args[i].JsFunction? ==> Scanned(args, i + 1, program, verbose, config, i)
    ensures args[i].JsArray? ==> Scanned(args, i + 1, program, verbose, i, callback)
    ensures args[i].JsOther? ==> Scanned(args, i + 1, program, verbose, config, callback)
  {
    CountStep(args, i);
  }

  /** After the whole list: the order checks of `Connect` hold exactly when
      the roles are in order, and the positions found are the roles' positions. */
  lemma ScanComplete(args: seq<JsValue>, program: int, verbose: int, config: int, callback: int)
    requires Scanned(args, |args|, program, verbose, config, callback)
    ensures NoDuplicates(args)
    ensures program == -1 <==> Count(args, KString) == 0
    ensures callback == -1 <==> Count(args, KFunction) == 0
    ensures program != -1 && callback != -1 ==>
              (InOrder(args) <==>
                 !(config > -1 && config < verbose) && !(config > -1 && config < program) &&
                 !(verbose > -1 && verbose < program))
    ensures program != -1 && callback != -1 ==>
              Fits(args, Choice(program, if verbose == -1 then None else Some(verbose),
                                if config == -1 then None else Some(config), callback))
  {
    assert args[..|args|] == args;
    if program != -1 && callback != -1 {
      if !(config > -1 && config < verbose) && !(config > -1 && config < program) &&
         !(verbose > -1 && verbose < program) {
        forall i, j | 0 <= i < j < |args| && Rank(RoleAt(args, i)) > 0 && Rank(RoleAt(args, j)) > 0
          ensures Rank(RoleAt(args, i)) < Rank(RoleAt(args, j))
        {
        }
      }
    }
  }

  /** The classification loop of `Connect`: the first string is the program
      name, a second string or an array is the config, a boolean is verbose,
      a function is the callback; every other value is skipped. */
  method Classify(args: seq<JsValue>) returns (r: Classified)
    ensures |args| > 4 ==> r == Rejected(TooManyArguments)
    ensures r.Chosen? <==> Acceptable(args)
    ensures r.Chosen? ==> Fits(args, r.choice)
    ensures |args| <= 4 && NoDuplicates(args) && Count(args, KString) == 0 ==>
              r == Rejected(ProgramNameRequired)
    ensures |args| <= 4 && NoDuplicates(args) && Count(args, KString) >= 1 && Count(args, KFunction) == 0 ==>
              r == Rejected(CallbackRequired)
  {
    if |args| > 4 {
      return Rejected(TooManyArguments);
    }
    var program, verbose, config, callback := -1, -1, -1, -1;
    var i := 0;
    while i < |args|
      invariant Scanned(args, i, program, verbose, config, callback)
    {
      if Duplicate(args[i], program, verbose, config, callback) {
        ScanRejects(args, i, program, verbose, config, callback);
      } else if args[i].JsString? {
        ScanString(args, i, program, verbose, config, callback);
      } else {
        ScanOther(args, i, program, verbose, config, callback);
      }
      match args[i] {
      case JsString(_) =>
        if program != -1 && config != -1 {
          return Rejected(TooManyStrings);
        }
        if program == -1 {
          program := i;
        } else {
          config := i;
        }
      case JsBool(_) =>
        if verbose != -1 {
          return Rejected(TooManyBooleans);
        }
        verbose := i;
      case JsFunction(_) =>
        if callback != -1 {
          return Rejected(TooManyCallbacks);
        }
        callback := i;
      case JsArray(_) =>
        if config != -1 {
          return Rejected(TooManyArrays);
        }
        config := i;
      case JsOther =>
      }
      i := i + 1;
    }
    assert args[..|args|] == args;
    r := CheckRoles(args, program, verbose, config, callback);
  }

  /** The checks after the classification loop, in their order: a program
      name and a callback are required, then verbose must precede the config,
      the program name must precede the config, and the program name must
      precede verbose. */
  method CheckRoles(args: seq<JsValue>, program: int, verbose: int, config: int, callback: int)
    returns (r: Classified)
    requires Scanned(args, |args|, program, verbose, config, callback)
    ensures r.Chosen? <==> Count(args, KString) >= 1 && Count(args, KFunction) == 1 && InOrder(args)
    ensures r.Chosen? ==> Fits(args, r.choice)
    ensures Count(args, KString) == 0 ==> r == Rejected(ProgramNameRequired)
    ensures Count(args, KString) >= 1 && Count(args, KFunction) == 0 ==> r == Rejected(CallbackRequired)
  {
    ScanComplete(args, program, verbose, config, callback);
    if program == -1 {
      return Rejected(ProgramNameRequired);
    }
    if callback == -1 {
      return Rejected(CallbackRequired);
    }
    if config > -1 && config < verbose {
      return Rejected(VerboseAfterConfig);
    }
    if config > -1 && config < program {
      return Rejected(ConfigBeforeProgramName);
    }
    if verbose > -1 && verbose < program {
      return Rejected(VerboseBeforeProgramName);
    }
    r := Chosen(Choice(program, if verbose == -1 then None else Some(verbose),
                       if config == -1 then None else Some(config), callback));
  }
}
