/** The command lines `utils/script_runner.py` builds for the pipeline's
    scripts: the interpreter, the script, then options appended in a fixed
    order, each only when Python finds its input truthy. Running the
    command is outside the model; its outcome is a parameter. */
module ScriptArgs {
  import opened Wrappers
  import opened Text
  import opened Collections

  /** One command-line option: a switch on its own, or a flag followed by
      its value. */
  datatype Arg = Switch(name: string) | Valued(name: string, value: string)

  /** The argv words of a list of options, in order. */
  function Render(args: seq<Arg>): (argv: seq<string>)
    ensures |argv| >= |args|
  {
    if args == [] then []
    else
      (match args[0]
         case Switch(n) => [n]
         case Valued(n, v) => [n, v])
      + Render(args[1..])
  }

  /** Reads argv back, knowing which flags take a value; `None` when such a
      flag is the last word. */
  function Parse(argv: seq<string>, valued: set<string>): Option<seq<Arg>>
    decreases |argv|
  {
    if argv == [] then Some([])
    else if argv[0] in valued then
      if |argv| < 2 then None
      else match Parse(argv[2..], valued)
        case None => None
        case Some(rest) => Some([Valued(argv[0], argv[1])] + rest)
    else
      match Parse(argv[1..], valued)
      case None => None
      case Some(rest) => Some([Switch(argv[0])] + rest)
  }

  /** The flags that take a value are exactly those in `valued`. */
  predicate WellFormed(args: seq<Arg>, valued: set<string>) {
    forall i :: 0 <= i < |args| ==> (args[i].Valued? <==> args[i].name in valued)
  }

  /** The options can be read back from the argv they render to, so the
      command line carries each of them unambiguously. */
  lemma {:induction false} ParseRender(args: seq<Arg>, valued: set<string>)
    requires WellFormed(args, valued)
    ensures Parse(Render(args), valued) == Some(args)
  {
    if args != [] {
      var tail := args[1..];
      assert WellFormed(tail, valued) by {
        forall i | 0 <= i < |tail| ensures tail[i].Valued? <==> tail[i].name in valued {
          assert tail[i] == args[i + 1];
        }
      }
      ParseRender(tail, valued);
      var argv := Render(args);
      assert args == [args[0]] + tail;
      match args[0]
      case Switch(n) =>
        assert argv == [n] + Render(tail);
        assert argv[1..] == Render(tail);
      case Valued(n, v) =>
        assert argv == [n, v] + Render(tail);
        assert argv[2..] == Render(tail);
    }
  }

  function Names(args: seq<Arg>): (names: seq<string>)
    ensures |names| == |args|
    ensures forall i :: 0 <= i < |args| ==> names[i] == args[i].name
  {
    seq(|args|, i requires 0 <= i < |args| => args[i].name)
  }

  /** The value given with `name`, if the options have it. */
  function Lookup(args: seq<Arg>, name: string): (r: Option<string>)
    ensures r.Some? ==> exists i :: 0 <= i < |args| && args[i] == Valued(name, r.value)
    ensures r.None? ==> forall i :: 0 <= i < |args| ==> !(args[i].Valued? && args[i].name == name)
  {
    if args == [] then None
    else if args[0].Valued? && args[0].name == name then
      Some(args[0].value)
    else
      var r := Lookup(args[1..], name);
      assert forall i :: 1 <= i < |args| ==> args[i] == args[1..][i - 1];
      r
  }

  // ---------------------------------------------------------------------
  // Options emitted in a fixed order when their input is truthy
  // ---------------------------------------------------------------------

  /** One `if x: args.append(...)` / `args.extend(...)` step of a builder:
      a switch emitted when `on`, or a flag with the value it is given when
      the input was truthy (`None` when it was not). */
  datatype Want = SwitchWhen(flag: string, on: bool) | ValueWhen(flag: string, value: Option<string>)

  function Emitted(w: Want): (args: seq<Arg>)
    ensures |args| <= 1
    ensures forall a :: a in args ==> a.name == w.flag && (a.Valued? <==> w.ValueWhen?)
  {
    match w
    case SwitchWhen(f, on) => if on then [Switch(f)] else []
    case ValueWhen(f, v) => if v.Some? then [Valued(f, v.value)] else []
  }

  /** The options a builder appends, step by step. */
  function Emit(ws: seq<Want>): seq<Arg> {
    if ws == [] then [] else Emitted(ws[0]) + Emit(ws[1..])
  }

  function Flags(ws: seq<Want>): (flags: seq<string>)
    ensures |flags| == |ws|
    ensures forall j :: 0 <= j < |ws| ==> flags[j] == ws[j].flag
  {
    seq(|ws|, j requires 0 <= j < |ws| => ws[j].flag)
  }

  function ValueFlags(ws: seq<Want>): set<string> {
    set j | 0 <= j < |ws| && ws[j].ValueWhen? :: ws[j].flag
  }

  predicate Distinct(flags: seq<string>) {
    forall i, j :: 0 <= i < j < |flags| ==> flags[i] != flags[j]
  }

  /** An option is emitted exactly when one of the steps emits it. */
  lemma {:induction false} EmitMembers(ws: seq<Want>)
    ensures forall a :: a in Emit(ws) <==> exists j :: 0 <= j < |ws| && a in Emitted(ws[j])
  {
    if ws != [] {
      EmitMembers(ws[1..]);
      forall a | a in Emit(ws) ensures exists j :: 0 <= j < |ws| && a in Emitted(ws[j]) {
        if a !in Emitted(ws[0]) {
          assert a in Emit(ws[1..]);
          var j :| 0 <= j < |ws| - 1 && a in Emitted(ws[1..][j]);
          assert a in Emitted(ws[j + 1]);
        }
      }
      forall a, j | 0 <= j < |ws| && a in Emitted(ws[j]) ensures a in Emit(ws) {
        if j > 0 {
          assert a in Emitted(ws[1..][j - 1]);
        }
      }
    }
  }

  /** Every emitted option carries the flag of one of the steps. */
  lemma {:induction false} EmitNames(ws: seq<Want>)
    ensures forall a :: a in Emit(ws) ==> a.name in Flags(ws)
  {
    if ws != [] {
      EmitNames(ws[1..]);
      forall a | a in Emit(ws) ensures a.name in Flags(ws) {
        if a in Emitted(ws[0]) {
          assert Flags(ws)[0] == a.name;
        } else {
          assert a in Emit(ws[1..]);
          var k :| 0 <= k < |ws| - 1 && Flags(ws[1..])[k] == a.name;
          assert Flags(ws)[k + 1] == a.name;
        }
      }
    }
  }

  lemma DistinctTail(ws: seq<Want>)
    requires ws != [] && Distinct(Flags(ws))
    ensures Distinct(Flags(ws[1..]))
    ensures ws[0].flag !in Flags(ws[1..])
  {
    forall a, b | 0 <= a < b < |ws| - 1 ensures Flags(ws[1..])[a] != Flags(ws[1..])[b] {
      assert Flags(ws)[a + 1] != Flags(ws)[b + 1];
    }
    forall k | 0 <= k < |ws| - 1 ensures Flags(ws[1..])[k] != ws[0].flag {
      assert Flags(ws)[0] != Flags(ws)[k + 1];
    }
  }

  /** `x` is still a subsequence of `b` with one more element in front. */
  lemma {:induction false} SubsequenceCons(x: seq<string>, b: seq<string>)
    requires b != [] && IsSubsequence(x, b[1..])
    ensures IsSubsequence(x, b)
    decreases |x| + |b|
  {
    if x != [] && x[0] == b[0] {
      SubsequenceDrop(x, b[1..]);
    }
  }

  /** A subsequence without its first element is still a subsequence. */
  lemma {:induction false} SubsequenceDrop(a: seq<string>, b: seq<string>)
    requires a != [] && IsSubsequence(a, b)
    ensures IsSubsequence(a[1..], b)
    decreases |a| + |b|
  {
    if a[0] == b[0] {
      SubsequenceCons(a[1..], b);
    } else {
      SubsequenceDrop(a, b[1..]);
      SubsequenceCons(a[1..], b);
    }
  }

  /** The options come out in the order of the steps, each at most once. */
  lemma {:induction false} EmitOrder(ws: seq<Want>)
    ensures IsSubsequence(Names(Emit(ws)), Flags(ws))
  {
    if ws != [] {
      var a, b := Names(Emit(ws[1..])), Flags(ws[1..]);
      EmitOrder(ws[1..]);
      var y := ws[0].flag;
      var yb := Flags(ws);
      assert yb == [y] + b;
      assert yb[1..] == b;
      if Emitted(ws[0]) == [] {
        assert Names(Emit(ws)) == a;
        SubsequenceCons(a, yb);
      } else {
        assert Names(Emit(ws)) == [y] + a;
        assert ([y] + a)[1..] == a;
      }
    }
  }

  lemma {:induction false} LookupSkip(a: seq<Arg>, b: seq<Arg>, f: string)
    requires forall x :: x in a ==> !(x.Valued? && x.name == f)
    ensures Lookup(a + b, f) == Lookup(b, f)
  {
    if a != [] {
      assert a[0] in a && (a + b)[0] == a[0];
      forall x | x in a[1..] ensures !(x.Valued? && x.name == f) {
        assert x in a;
      }
      LookupSkip(a[1..], b, f);
      assert (a + b)[1..] == a[1..] + b;
      assert Lookup(a + b, f) == Lookup(a[1..] + b, f);
    } else {
      assert a + b == b;
    }
  }

  /** The value a flag is given is the one its step was given, present
      exactly when the input was truthy. */
  lemma {:induction false} EmitLookup(ws: seq<Want>, i: int)
    requires Distinct(Flags(ws)) && 0 <= i < |ws|
    ensures Lookup(Emit(ws), ws[i].flag) == if ws[i].ValueWhen? then ws[i].value else None
  {
    DistinctTail(ws);
    if i == 0 {
      EmitLookupHead(ws);
    } else {
      var f := ws[i].flag;
      assert Flags(ws)[0] != Flags(ws)[i];
      EmitLookup(ws[1..], i - 1);
      LookupSkip(Emitted(ws[0]), Emit(ws[1..]), f);
    }
  }

  lemma EmitLookupHead(ws: seq<Want>)
    requires ws != [] && ws[0].flag !in Flags(ws[1..])
    ensures Lookup(Emit(ws), ws[0].flag) == if ws[0].ValueWhen? then ws[0].value else None
  {
    var f := ws[0].flag;
    var rest := Emit(ws[1..]);
    EmitNames(ws[1..]);
    LookupSkip(rest, [], f);
    assert rest + [] == rest;
    if !(ws[0].ValueWhen? && ws[0].value.Some?) {
      LookupSkip(Emitted(ws[0]), rest, f);
    }
  }

  /** A switch is on the command line exactly when its input was truthy. */
  lemma {:induction false} EmitSwitch(ws: seq<Want>, i: int)
    requires Distinct(Flags(ws)) && 0 <= i < |ws| && ws[i].SwitchWhen?
    ensures Switch(ws[i].flag) in Emit(ws) <==> ws[i].on
  {
    var f := ws[i].flag;
    DistinctTail(ws);
    var rest := Emit(ws[1..]);
    assert Emit(ws) == Emitted(ws[0]) + rest;
    if i == 0 {
      EmitNames(ws[1..]);
      assert Switch(f) !in rest;
    } else {
      assert Flags(ws)[0] != Flags(ws)[i];
      EmitSwitch(ws[1..], i - 1);
      assert Switch(f) !in Emitted(ws[0]);
    }
  }

  /** The flags that take a value are exactly the value steps' flags, so
      the command line reads back (`ParseRender`). */
  lemma EmitWellFormed(ws: seq<Want>)
    requires Distinct(Flags(ws))
    ensures WellFormed(Emit(ws), ValueFlags(ws))
  {
    EmitMembers(ws);
    var args := Emit(ws);
    forall k | 0 <= k < |args| ensures args[k].Valued? <==> args[k].name in ValueFlags(ws) {
      assert args[k] in args;
      var j :| 0 <= j < |ws| && args[k] in Emitted(ws[j]);
      if args[k].name in ValueFlags(ws) {
        var j' :| 0 <= j' < |ws| && ws[j'].ValueWhen? && ws[j'].flag == args[k].name;
        assert Flags(ws)[j] == Flags(ws)[j'];
      }
    }
  }

  // ---------------------------------------------------------------------
  // Python truthiness of the optional inputs
  // ---------------------------------------------------------------------

  /** `if text:` for an optional string: present and not empty. */
  predicate Given(text: Option<string>) {
    text.Some? && text.value != []
  }

  /** The value of a string option when it is given. */
  function IfGiven(text: Option<string>): Option<string> {
    if Given(text) then text else None
  }

  /** `str(n)` for an optional number `n` when `if n:` holds: present and
      not zero. */
  function IfNonZero(n: Option<int>): Option<string> {
    if n.Some? && n.value != 0 then Some(IntToString(n.value)) else None
  }

  // ---------------------------------------------------------------------
  // The builders
  // ---------------------------------------------------------------------

  const GmailOrder := ["--max-emails", "--dry-run", "--config"]

  function GmailSteps(maxEmails: int, dryRun: bool, config: Option<string>): seq<Want> {
    [ValueWhen("--max-emails", IfNonZero(Some(maxEmails))), SwitchWhen("--dry-run", dryRun),
     ValueWhen("--config", IfGiven(config))]
  }

  /** `run_gmail_parser`: `--max-emails N` unless `N` is 0 (so 0 does not
      mean "no emails", it drops the flag), `--dry-run` when asked,
      `--config C` for a non-empty `C`, in that order. */
  function GmailOptions(maxEmails: int, dryRun: bool, config: Option<string>): (args: seq<Arg>)
    ensures WellFormed(args, {"--max-emails", "--config"})
    ensures IsSubsequence(Names(args), GmailOrder)
    ensures Lookup(args, "--max-emails") == if maxEmails != 0 then Some(IntToString(maxEmails)) else None
    ensures Switch("--dry-run") in args <==> dryRun
    ensures Lookup(args, "--config") == IfGiven(config)
  {
    var ws := GmailSteps(maxEmails, dryRun, config);
    assert Flags(ws) == GmailOrder;
    assert ValueFlags(ws) == {"--max-emails", "--config"} by {
      assert ws[0].ValueWhen? && ws[2].ValueWhen?;
    }
    EmitWellFormed(ws);
    EmitOrder(ws);
    EmitLookup(ws, 0);
    EmitSwitch(ws, 1);
    EmitLookup(ws, 2);
    Emit(ws)
  }

  const CompassOrder := ["--output", "--limit", "--headless", "--update-db", "--address"]

  function CompassSteps(output: Option<string>, limit: Option<int>, headless: bool, updateDb: bool,
                        address: Option<string>): seq<Want> {
    [ValueWhen("--output", IfGiven(output)), ValueWhen("--limit", IfNonZero(limit)),
     SwitchWhen("--headless", headless), SwitchWhen("--update-db", updateDb),
     ValueWhen("--address", IfGiven(address))]
  }

  /** `run_compass_enrichment`: `--output`, `--limit`, `--headless`,
      `--update-db`, `--address`, in that order, each only when truthy. */
  function CompassOptions(output: Option<string>, limit: Option<int>, headless: bool, updateDb: bool,
                          address: Option<string>): (args: seq<Arg>)
    ensures WellFormed(args, {"--output", "--limit", "--address"})
    ensures IsSubsequence(Names(args), CompassOrder)
    ensures Lookup(args, "--output") == IfGiven(output)
    ensures Lookup(args, "--limit") == IfNonZero(limit)
    ensures Switch("--headless") in args <==> headless
    ensures Switch("--update-db") in args <==> updateDb
    ensures Lookup(args, "--address") == IfGiven(address)
  {
    var ws := CompassSteps(output, limit, headless, updateDb, address);
    assert Flags(ws) == CompassOrder;
    assert ValueFlags(ws) == {"--output", "--limit", "--address"} by {
      assert ws[0].ValueWhen? && ws[1].ValueWhen? && ws[4].ValueWhen?;
    }
    EmitWellFormed(ws);
    EmitOrder(ws);
    EmitLookup(ws, 0);
    EmitLookup(ws, 1);
    EmitSwitch(ws, 2);
    EmitSwitch(ws, 3);
    EmitLookup(ws, 4);
    Emit(ws)
  }

  const CashflowOrder := ["--config-path", "--db-path", "--limit", "--dry-run", "--force-update", "--address"]

  function CashflowSteps(configPath: Option<string>, dbPath: Option<string>, limit: Option<int>,
                         dryRun: bool, forceUpdate: bool, address: Option<string>): seq<Want> {
    [ValueWhen("--config-path", IfGiven(configPath)), ValueWhen("--db-path", IfGiven(dbPath)),
     ValueWhen("--limit", IfNonZero(limit)), SwitchWhen("--dry-run", dryRun),
     SwitchWhen("--force-update", forceUpdate), ValueWhen("--address", IfGiven(address))]
  }

  /** `run_cashflow_enrichment`: `--config-path`, `--db-path`, `--limit`,
      `--dry-run`, `--force-update`, `--address`, in that order, each only
      when truthy. */
  function CashflowOptions(configPath: Option<string>, dbPath: Option<string>, limit: Option<int>,
                           dryRun: bool, forceUpdate: bool, address: Option<string>): (args: seq<Arg>)
    ensures WellFormed(args, {"--config-path", "--db-path", "--limit", "--address"})
    ensures IsSubsequence(Names(args), CashflowOrder)
    ensures Lookup(args, "--config-path") == IfGiven(configPath)
    ensures Lookup(args, "--db-path") == IfGiven(dbPath)
    ensures Lookup(args, "--limit") == IfNonZero(limit)
    ensures Switch("--dry-run") in args <==> dryRun
    ensures Switch("--force-update") in args <==> forceUpdate
    ensures Lookup(args, "--address") == IfGiven(address)
  {
    var ws := CashflowSteps(configPath, dbPath, limit, dryRun, forceUpdate, address);
    assert Flags(ws) == CashflowOrder;
    assert ValueFlags(ws) == {"--config-path", "--db-path", "--limit", "--address"} by {
      assert ws[0].ValueWhen? && ws[1].ValueWhen? && ws[2].ValueWhen? && ws[5].ValueWhen?;
    }
    EmitWellFormed(ws);
    EmitOrder(ws);
    EmitLookup(ws, 0);
    EmitLookup(ws, 1);
    EmitLookup(ws, 2);
    EmitSwitch(ws, 3);
    EmitSwitch(ws, 4);
    EmitLookup(ws, 5);
    Emit(ws)
  }

  const AnalyzerValued := {"--address", "--down-payment", "--rate", "--insurance", "--misc-monthly",
                           "--loan-term", "--db-path"}

  /** `run_cashflow_analyzer`: the address and the four money figures,
      always and in that order, then `--loan-term` for a non-zero term and
      `--db-path` for a non-empty path. `show` is Python's `str` on the
      numbers. */
  function AnalyzerOptions(address: string, downPayment: real, rate: real, insurance: real, miscMonthly: real,
                           loanTerm: Option<real>, dbPath: Option<string>, show: real -> string): (args: seq<Arg>)
    ensures 5 <= |args| <= 7
    ensures args[..5] == [Valued("--address", address), Valued("--down-payment", show(downPayment)),
                          Valued("--rate", show(rate)), Valued("--insurance", show(insurance)),
                          Valued("--misc-monthly", show(miscMonthly))]
    ensures forall k :: 5 <= k < |args| ==> args[k].Valued?
    ensures Names(args[5..]) == (if loanTerm.Some? && loanTerm.value != 0.0 then ["--loan-term"] else [])
                                + (if Given(dbPath) then ["--db-path"] else [])
    ensures Lookup(args[5..], "--loan-term") == if loanTerm.Some? && loanTerm.value != 0.0 then Some(show(loanTerm.value)) else None
    ensures Lookup(args[5..], "--db-path") == IfGiven(dbPath)
  {
    var fixed := [Valued("--address", address), Valued("--down-payment", show(downPayment)),
                  Valued("--rate", show(rate)), Valued("--insurance", show(insurance)),
                  Valued("--misc-monthly", show(miscMonthly))];
    var tail := AnalyzerExtras(loanTerm, dbPath, show);
    assert (fixed + tail)[..5] == fixed && (fixed + tail)[5..] == tail;
    fixed + tail
  }

  /** The optional `--loan-term` and `--db-path` of the analyzer. */
  function AnalyzerExtras(loanTerm: Option<real>, dbPath: Option<string>, show: real -> string): (args: seq<Arg>)
    ensures |args| <= 2
    ensures forall k :: 0 <= k < |args| ==> args[k].Valued?
    ensures Names(args) == (if loanTerm.Some? && loanTerm.value != 0.0 then ["--loan-term"] else [])
                           + (if Given(dbPath) then ["--db-path"] else [])
    ensures Lookup(args, "--loan-term") == if loanTerm.Some? && loanTerm.value != 0.0 then Some(show(loanTerm.value)) else None
    ensures Lookup(args, "--db-path") == IfGiven(dbPath)
  {
    var ws := [ValueWhen("--loan-term", if loanTerm.Some? && loanTerm.value != 0.0 then Some(show(loanTerm.value)) else None),
               ValueWhen("--db-path", IfGiven(dbPath))];
    assert Flags(ws) == ["--loan-term", "--db-path"];
    EmitLookup(ws, 0);
    EmitLookup(ws, 1);
    assert Emit(ws) == Emitted(ws[0]) + Emitted(ws[1]) by {
      assert ws[1..][0] == ws[1] && ws[1..][1..] == [];
      assert Emit(ws[1..]) == Emitted(ws[1]) + Emit([]);
      assert Emitted(ws[1]) + [] == Emitted(ws[1]);
    }
    Emit(ws)
  }

  // ---------------------------------------------------------------------
  // run_script
  // ---------------------------------------------------------------------

  /** `cmd` in `run_script`: the interpreter, the script path, then the
      arguments unchanged; `None` and an empty list both add nothing. */
  function Command(interpreter: string, scriptPath: string, args: Option<seq<string>>): (cmd: seq<string>)
    ensures |cmd| >= 2 && cmd[0] == interpreter && cmd[1] == scriptPath
    ensures cmd[2..] == args.GetOr([])
  {
    [interpreter, scriptPath] + (if args.Some? && args.value != [] then args.value else [])
  }

  /** What the child process reported. */
  datatype Completed = Completed(returncode: int, stdout: string, stderr: string)

  /** The dictionary `run_script` returns. */
  datatype RunResult = RunResult(returncode: int, stdout: Option<string>, stderr: Option<string>)

  function ScriptResult(done: Completed, captureOutput: bool): (r: RunResult)
    ensures r.returncode == done.returncode
    ensures captureOutput ==> r.stdout == Some(done.stdout) && r.stderr == Some(done.stderr)
    ensures !captureOutput ==> r.stdout.None? && r.stderr.None?
  {
    if captureOutput then RunResult(done.returncode, Some(done.stdout), Some(done.stderr))
    else RunResult(done.returncode, None, None)
  }

  /** `run_walkscore_enrichment` and `run_init_db` pass no arguments: the
      command is the interpreter and the script alone. */
  lemma NoArgumentCommand(interpreter: string, scriptPath: string)
    ensures Command(interpreter, scriptPath, None) == [interpreter, scriptPath]
    ensures Command(interpreter, scriptPath, Some([])) == [interpreter, scriptPath]
  {
  }


  /** The command each builder hands to `run_script` starts with the
      interpreter and the script and reads back to the options built. */
  lemma GmailCommand(interpreter: string, scriptPath: string, maxEmails: int, dryRun: bool, config: Option<string>)
    ensures var cmd := Command(interpreter, scriptPath, Some(Render(GmailOptions(maxEmails, dryRun, config))));
            cmd[..2] == [interpreter, scriptPath]
            && Parse(cmd[2..], {"--max-emails", "--config"}) == Some(GmailOptions(maxEmails, dryRun, config))
  {
    ParseRender(GmailOptions(maxEmails, dryRun, config), {"--max-emails", "--config"});
  }

  lemma CompassCommand(interpreter: string, scriptPath: string, output: Option<string>, limit: Option<int>,
                       headless: bool, updateDb: bool, address: Option<string>)
    ensures var args := CompassOptions(output, limit, headless, updateDb, address);
            var cmd := Command(interpreter, scriptPath, Some(Render(args)));
            cmd[..2] == [interpreter, scriptPath]
            && Parse(cmd[2..], {"--output", "--limit", "--address"}) == Some(args)
  {
    ParseRender(CompassOptions(output, limit, headless, updateDb, address), {"--output", "--limit", "--address"});
  }

  lemma CashflowCommand(interpreter: string, scriptPath: string, configPath: Option<string>, dbPath: Option<string>,
                        limit: Option<int>, dryRun: bool, forceUpdate: bool, address: Option<string>)
    ensures var args := CashflowOptions(configPath, dbPath, limit, dryRun, forceUpdate, address);
            var cmd := Command(interpreter, scriptPath, Some(Render(args)));
            cmd[..2] == [interpreter, scriptPath]
            && Parse(cmd[2..], {"--config-path", "--db-path", "--limit", "--address"}) == Some(args)
  {
    ParseRender(CashflowOptions(configPath, dbPath, limit, dryRun, forceUpdate, address),
                {"--config-path", "--db-path", "--limit", "--address"});
  }

  lemma AnalyzerCommand(interpreter: string, scriptPath: string, address: string, downPayment: real, rate: real,
                        insurance: real, miscMonthly: real, loanTerm: Option<real>, dbPath: Option<string>,
                        show: real -> string)
    ensures var args := AnalyzerOptions(address, downPayment, rate, insurance, miscMonthly, loanTerm, dbPath, show);
            var cmd := Command(interpreter, scriptPath, Some(Render(args)));
            cmd[..2] == [interpreter, scriptPath] && Parse(cmd[2..], AnalyzerValued) == Some(args)
  {
    var args := AnalyzerOptions(address, downPayment, rate, insurance, miscMonthly, loanTerm, dbPath, show);
    forall k | 0 <= k < |args| ensures args[k].Valued? && args[k].name in AnalyzerValued {
      if k < 5 {
        assert args[k] == args[..5][k];
      } else {
        assert args[k].name == Names(args[5..])[k - 5];
      }
    }
    ParseRender(args, AnalyzerValued);
  }
}
