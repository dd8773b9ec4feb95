/** The supervisor `run_all.py`: runs each scraper in turn as a child
    process under a time limit, records how each run ended, rewrites the
    progress file after every script, writes the final summary, and exits
    with 1 when any script failed or ran out of time. */
module Supervisor {
  import opened Wrappers
  import opened Text
  import opened Values

  /** The scripts, in the order they are run. */
  const Scripts: seq<string> := ["MerkurV1.py", "ObiV1.py", "KalcerV1.py", "SlovenijalesV1.py",
                                 "TehnolesV1.py", "ZagozenV1.py", "PilihBetonV1.py"]

  /** How many characters of each output stream a result keeps. */
  const TailLength: nat := 4000

  const TimeoutVar := "SCRIPT_TIMEOUT_MIN"
  const DefaultTimeout := "45"
  const OutputVar := "OUTPUT_DIR"
  const DefaultOutputDir := "artifacts"

  /** How a child process ended: with an exit code and its captured output,
      or killed at the time limit with whatever output was captured by then
      (possibly none). On the time limit `subprocess.run` hands over the
      partial output undecoded, as `bytes`, whatever `text=True` says. */
  datatype Outcome =
    | Exited(code: int, stdout: string, stderr: string)
    | TimedOut(partialOut: Option<string>, partialErr: Option<string>)

  /** A captured stream with something in it (`e.stdout or ""` keeps it). */
  predicate Printed(c: Option<string>) {
    c.Some? && c.value != []
  }

  /** A child stopped at the time limit after printing something: its
      result holds `bytes`, which `json.dump` cannot write. */
  predicate Unwritable(o: Outcome) {
    o.TimedOut? && (Printed(o.partialOut) || Printed(o.partialErr))
  }

  datatype Status = Ok | Error | Timeout

  /** The `status` string of a result. */
  function StatusName(s: Status): string {
    match s
    case Ok => "ok"
    case Error => "error"
    case Timeout => "timeout"
  }

  /** A `*_tail` value: text, or the `bytes` of a partial output, which
      are modelled by the characters they encode. */
  datatype TailValue = Text(text: string) | Bytes(bytes: string)

  /** The entry of `results` for one script (its clock fields left out). */
  datatype ScriptResult = ScriptResult(script: string, status: Status, returncode: Option<int>,
                                       stdoutTail: TailValue, stderrTail: TailValue)

  /** A result `json.dump` can write: both tails are text. */
  predicate Writable(r: ScriptResult) {
    r.stdoutTail.Text? && r.stderrTail.Text?
  }

  /** What the progress and summary files hold (clock fields left out). */
  datatype Summary = Summary(timeoutMin: int, outputDir: string, results: seq<ScriptResult>)

  /** `s[-4000:]`: the last `TailLength` characters, or all of a shorter
      string. */
  function Tail(s: string): (t: string)
    ensures |t| == if |s| <= TailLength then |s| else TailLength
    ensures s == s[..|s| - |t|] + t
  {
    if |s| <= TailLength then s else s[|s| - TailLength..]
  }

  /** A tail is its own tail. */
  lemma TailIdempotent(s: string)
    ensures Tail(Tail(s)) == Tail(s)
  {
  }

  /** `(e.stdout or "")[-4000:]`: the empty text when nothing was
      captured, otherwise the tail of the partial output, as `bytes`. */
  function PartialTail(c: Option<string>): TailValue {
    if Printed(c) then Bytes(Tail(c.value)) else Text("")
  }

  /** The result recorded for `script` once its process ended as `o`. */
  function ResultOf(script: string, o: Outcome): ScriptResult {
    match o
    case Exited(code, out, err) =>
      ScriptResult(script, if code == 0 then Ok else Error, Some(code), Text(Tail(out)), Text(Tail(err)))
    case TimedOut(out, err) =>
      ScriptResult(script, Timeout, None, PartialTail(out), PartialTail(err))
  }

  /** A script is "ok" exactly when it exited with code 0, "error" exactly
      when it exited with another code, and "timeout" exactly when it was
      stopped at the limit, in which case it has no return code. The tails
      are those of what it printed, the empty text standing for missing
      output; a tail of partial output is `bytes`. */
  lemma ResultOfSpec(script: string, o: Outcome)
    ensures var r := ResultOf(script, o);
      && r.script == script
      && (r.status == Ok <==> o.Exited? && o.code == 0)
      && (r.status == Error <==> o.Exited? && o.code != 0)
      && (r.status == Timeout <==> o.TimedOut?)
      && (r.returncode.None? <==> o.TimedOut?)
      && (o.Exited? ==> r.returncode == Some(o.code))
      && StatusName(r.status) in {"ok", "error", "timeout"}
      && (o.Exited? ==> r.stdoutTail == Text(Tail(o.stdout)) && r.stderrTail == Text(Tail(o.stderr)))
      && (o.TimedOut? && Printed(o.partialOut) ==> r.stdoutTail == Bytes(Tail(o.partialOut.value)))
      && (o.TimedOut? && !Printed(o.partialOut) ==> r.stdoutTail == Text(""))
      && (o.TimedOut? && Printed(o.partialErr) ==> r.stderrTail == Bytes(Tail(o.partialErr.value)))
      && (o.TimedOut? && !Printed(o.partialErr) ==> r.stderrTail == Text(""))
  {
  }

  /** A result can be written exactly when its child did not time out
      after printing. */
  lemma WritableSpec(script: string, o: Outcome)
    ensures Writable(ResultOf(script, o)) <==> !Unwritable(o)
  {
  }

  /** Every tail, text or `bytes`, keeps at most 4000 characters. */
  lemma TailsBounded(script: string, o: Outcome)
    ensures var r := ResultOf(script, o);
      var a := r.stdoutTail; var b := r.stderrTail;
      && |if a.Text? then a.text else a.bytes| <= TailLength
      && |if b.Text? then b.text else b.bytes| <= TailLength
  {
  }

  /** `os.environ.get(name, default)` */
  function EnvGet(env: map<string, string>, name: string, default: string): string {
    if name in env then env[name] else default
  }

  /** `int(os.environ.get("SCRIPT_TIMEOUT_MIN", "45"))`; `None` where
      `int` raises. */
  function TimeoutMinutes(env: map<string, string>): Option<int> {
    PyInt(Str(EnvGet(env, TimeoutVar, DefaultTimeout)))
  }

  /** Without the variable the limit is 45 minutes; set to the numeral of
      `m`, it is `m` minutes. */
  lemma TimeoutMinutesSpec(env: map<string, string>, m: int)
    ensures TimeoutVar !in env ==> TimeoutMinutes(env) == Some(45)
    ensures TimeoutVar in env && env[TimeoutVar] == IntText(m) ==> TimeoutMinutes(env) == Some(m)
  {
    ParseUnsigned(DefaultTimeout);
    assert DigitsValue(DefaultTimeout) == 45 by {
      assert DefaultTimeout[..1] == "4";
    }
    IntTextRoundTrip(m);
  }

  /** A result that makes the run fail. */
  predicate Bad(r: ScriptResult) {
    StatusName(r.status) in {"error", "timeout"}
  }

  /** `any(r["status"] in ("error", "timeout") for r in results)` */
  function AnyBad(rs: seq<ScriptResult>): bool {
    if rs == [] then false else Bad(rs[0]) || AnyBad(rs[1..])
  }

  /** `AnyBad` holds exactly when some result is bad. */
  lemma {:induction false} AnyBadSpec(rs: seq<ScriptResult>)
    ensures AnyBad(rs) <==> exists i :: 0 <= i < |rs| && Bad(rs[i])
  {
    if rs != [] {
      AnyBadSpec(rs[1..]);
      if AnyBad(rs[1..]) {
        var i :| 0 <= i < |rs[1..]| && Bad(rs[1..][i]);
        assert rs[i + 1] == rs[1..][i];
      }
      if !Bad(rs[0]) {
        forall i | 1 <= i < |rs|
          ensures !Bad(rs[i]) || exists j :: 0 <= j < |rs[1..]| && Bad(rs[1..][j])
        {
          assert rs[i] == rs[1..][i - 1];
        }
      }
    }
  }

  /** The exit status of the run. */
  function ExitCode(rs: seq<ScriptResult>): int {
    if AnyBad(rs) then 1 else 0
  }

  /** The run exits with 0 exactly when every script's status is "ok", and
      with 1 otherwise. */
  lemma ExitCodeSpec(rs: seq<ScriptResult>)
    ensures ExitCode(rs) == 0 || ExitCode(rs) == 1
    ensures ExitCode(rs) == 0 <==> forall i :: 0 <= i < |rs| ==> rs[i].status == Ok
  {
    AnyBadSpec(rs);
  }

  /** How `main` ends: `int` raising on the time limit before anything is
      written; `write_progress` raising `TypeError` on a result it cannot
      write, which ends the process with status 1 before the remaining
      scripts and without a summary; or the run through every script.
      `progress` holds the successive complete contents of
      `run_progress.json`, `partial` what the write that broke off was
      writing (the file is left holding a part of it), `summary` the
      contents of `run_summary.json`, and `code` the exit status. */
  datatype Ending =
    | BadTimeout
    | Crashed(progress: seq<Summary>, partial: Summary, code: int)
    | Finished(progress: seq<Summary>, summary: Summary, code: int)

  /** The results of running `scripts` in order, each given `secs` seconds
      by `run`. */
  function Results(scripts: seq<string>, run: (string, int) -> Outcome, secs: int): (rs: seq<ScriptResult>)
    ensures |rs| == |scripts|
  {
    seq(|scripts|, i requires 0 <= i < |scripts| => ResultOf(scripts[i], run(scripts[i], secs)))
  }

  /** The results of one more script are those before it and its own. */
  lemma ResultsSnoc(scripts: seq<string>, run: (string, int) -> Outcome, secs: int, n: nat)
    requires n < |scripts|
    ensures Results(scripts[..n + 1], run, secs)
      == Results(scripts[..n], run, secs) + [ResultOf(scripts[n], run(scripts[n], secs))]
  {
    var a := Results(scripts[..n + 1], run, secs);
    var b := Results(scripts[..n], run, secs) + [ResultOf(scripts[n], run(scripts[n], secs))];
    assert |a| == |b|;
    forall i | 0 <= i < |a| ensures a[i] == b[i] {
      var t := scripts[i];
      assert scripts[..n + 1][i] == t;
      assert a[i] == ResultOf(t, run(t, secs));
      if i < n {
        assert scripts[..n][i] == t;
        assert b[i] == Results(scripts[..n], run, secs)[i];
      }
    }
  }

  /** How many scripts of `scripts`, each given `secs` seconds by `run`,
      end with a result that can be written before the first that does not:
      the position of the script whose result breaks the progress file, or
      `|scripts|` when there is none. */
  function WritableRun(scripts: seq<string>, run: (string, int) -> Outcome, secs: int): (n: nat)
    ensures n <= |scripts|
    ensures forall i :: 0 <= i < n ==> !Unwritable(run(scripts[i], secs))
    ensures n < |scripts| ==> Unwritable(run(scripts[n], secs))
  {
    if scripts == [] then 0
    else if Unwritable(run(scripts[0], secs)) then 0
    else
      var n := WritableRun(scripts[1..], run, secs);
      assert forall i :: 1 <= i < n + 1 ==> scripts[i] == scripts[1..][i - 1];
      1 + n
  }

  /** `WritableRun` is pinned down by its contract: any `n` with no
      unwritable script before it and one at it (or the end) is it. */
  lemma WritableRunUnique(scripts: seq<string>, run: (string, int) -> Outcome, secs: int, n: nat)
    requires n <= |scripts|
    requires forall i :: 0 <= i < n ==> !Unwritable(run(scripts[i], secs))
    requires n < |scripts| ==> Unwritable(run(scripts[n], secs))
    ensures WritableRun(scripts, run, secs) == n
  {
  }

  /** The successive contents of the progress file while `rs` are
      recorded: `first` with no results, then with one more each time. */
  function Snapshots(first: Summary, rs: seq<ScriptResult>): (ps: seq<Summary>)
    ensures |ps| == |rs| + 1
    ensures forall k :: 0 <= k < |ps| ==> ps[k] == first.(results := rs[..k])
  {
    seq(|rs| + 1, k requires 0 <= k <= |rs| => first.(results := rs[..k]))
  }

  lemma SnapshotsSnoc(first: Summary, rs: seq<ScriptResult>, r: ScriptResult)
    ensures Snapshots(first, rs + [r]) == Snapshots(first, rs) + [first.(results := rs + [r])]
  {
    var a := Snapshots(first, rs + [r]);
    var b := Snapshots(first, rs) + [first.(results := rs + [r])];
    forall k | 0 <= k < |a| ensures a[k] == b[k] {
      if k <= |rs| {
        assert (rs + [r])[..k] == rs[..k];
      } else {
        assert (rs + [r])[..k] == rs + [r];
      }
    }
  }

  /** The loop of `main` over `scripts`: run each with `secs` seconds,
      append its result, and rewrite the progress file, which was first
      written before the loop as `first`. After `k` scripts the file holds
      the first `k` results. The write after the first script whose
      result cannot be written raises, and the loop stops there
      (`broke`): `results` then ends with that result, and `progress`
      holds the complete writes before it. */
  method RunScripts(scripts: seq<string>, run: (string, int) -> Outcome, secs: int, first: Summary)
    returns (results: seq<ScriptResult>, progress: seq<Summary>, broke: bool)
    requires first.results == []
    ensures var n := WritableRun(scripts, run, secs);
      && (broke <==> n < |scripts|)
      && progress == Snapshots(first, Results(scripts[..n], run, secs))
      && results == Results(scripts[..n], run, secs)
                    + (if broke then [ResultOf(scripts[n], run(scripts[n], secs))] else [])
  {
    results := [];
    progress := [first];
    broke := false;
    var i := 0;
    while i < |scripts|
      invariant 0 <= i <= |scripts|
      invariant results == Results(scripts[..i], run, secs)
      invariant forall j :: 0 <= j < i ==> !Unwritable(run(scripts[j], secs))
      invariant progress == Snapshots(first, results)
    {
      var result := RunOne(scripts[i], run(scripts[i], secs));
      WritableSpec(scripts[i], run(scripts[i], secs));
      if !Writable(result) {
        WritableRunUnique(scripts, run, secs, i);
        results := results + [result];
        broke := true;
        return;
      }
      SnapshotsSnoc(first, results, result);
      ResultsSnoc(scripts, run, secs, i);
      results := results + [result];
      progress := progress + [first.(results := results)];
      i := i + 1;
    }
    WritableRunUnique(scripts, run, secs, i);
  }

  /** The `try` around one child process: the result of a normal exit,
      or of the time limit. */
  method RunOne(script: string, o: Outcome) returns (result: ScriptResult)
    ensures result == ResultOf(script, o)
  {
    match o {
      case Exited(code, out, err) =>
        var status := if code == 0 then Ok else Error;
        result := ScriptResult(script, status, Some(code), Text(Tail(out)), Text(Tail(err)));
      case TimedOut(out, err) =>
        var outTail := if out.Some? && out.value != [] then Bytes(Tail(out.value)) else Text("");
        var errTail := if err.Some? && err.value != [] then Bytes(Tail(err.value)) else Text("");
        result := ScriptResult(script, Timeout, None, outTail, errTail);
    }
  }

  /** `main` once the limit is known to be `m` minutes and the output
      directory `outputDir`: the first progress write, the script loop,
      and then either the summary and the exit status or the crash. */
  method Supervise(m: int, outputDir: string, run: (string, int) -> Outcome) returns (e: Ending)
    ensures !e.BadTimeout?
    ensures e.Finished? <==> WritableRun(Scripts, run, m * 60) == |Scripts|
    ensures e.Finished? ==>
      var rs := Results(Scripts, run, m * 60);
      && e.summary == Summary(m, outputDir, rs)
      && e.progress == Snapshots(e.summary.(results := []), rs)
      && e.code == ExitCode(rs)
    ensures e.Crashed? ==>
      var n := WritableRun(Scripts, run, m * 60);
      var first := Summary(m, outputDir, []);
      && n < |Scripts|
      && e.progress == Snapshots(first, Results(Scripts[..n], run, m * 60))
      && e.partial == first.(results := Results(Scripts[..n + 1], run, m * 60))
      && e.code == 1
  {
    var results, progress, broke := RunScripts(Scripts, run, m * 60, Summary(m, outputDir, []));
    if broke {
      ResultsSnoc(Scripts, run, m * 60, WritableRun(Scripts, run, m * 60));
      e := Crashed(progress, Summary(m, outputDir, results), 1);
    } else {
      assert Scripts[..|Scripts|] == Scripts;
      e := Finished(progress, Summary(m, outputDir, results), ExitCode(results));
    }
  }

  /** `main`. `env` is the process environment and `run(script, secs)` how
      the child process for `script`, given `secs` seconds, ends. Returns
      how the run ends and the environment the children see. */
  method RunAll(env: map<string, string>, run: (string, int) -> Outcome) returns (e: Ending, env': map<string, string>)
    ensures env' == env[OutputVar := EnvGet(env, OutputVar, DefaultOutputDir)]
    ensures e.BadTimeout? <==> TimeoutMinutes(env).None?
    ensures e.Finished? <==>
      TimeoutMinutes(env).Some? && WritableRun(Scripts, run, TimeoutMinutes(env).value * 60) == |Scripts|
    ensures e.Finished? ==>
      var m := TimeoutMinutes(env).value;
      var rs := Results(Scripts, run, m * 60);
      && e.summary == Summary(m, EnvGet(env, OutputVar, DefaultOutputDir), rs)
      && e.progress == Snapshots(e.summary.(results := []), rs)
      && e.code == ExitCode(rs)
    ensures e.Crashed? ==>
      var m := TimeoutMinutes(env).value;
      var n := WritableRun(Scripts, run, m * 60);
      var first := Summary(m, EnvGet(env, OutputVar, DefaultOutputDir), []);
      && n < |Scripts|
      && e.progress == Snapshots(first, Results(Scripts[..n], run, m * 60))
      && e.partial == first.(results := Results(Scripts[..n + 1], run, m * 60))
      && e.code == 1
  {
    var outputDir := EnvGet(env, OutputVar, DefaultOutputDir);
    env' := env[OutputVar := outputDir];
    var minutes := TimeoutMinutes(env');
    assert minutes == TimeoutMinutes(env) by {
      assert EnvGet(env', TimeoutVar, DefaultTimeout) == EnvGet(env, TimeoutVar, DefaultTimeout);
    }
    if minutes.None? {
      return BadTimeout, env';
    }
    e := Supervise(minutes.value, outputDir, run);
  }

  /** Put in terms of the child processes: a run that gets going exits with
      0 exactly when every script exited with code 0 within its time. */
  lemma ExitCodeOfRun(scripts: seq<string>, run: (string, int) -> Outcome, secs: int)
    ensures ExitCode(Results(scripts, run, secs)) == 0 <==>
      forall i :: 0 <= i < |scripts| ==> run(scripts[i], secs).Exited? && run(scripts[i], secs).code == 0
  {
    var rs := Results(scripts, run, secs);
    ExitCodeSpec(rs);
    forall i | 0 <= i < |scripts|
      ensures rs[i].status == Ok <==> run(scripts[i], secs).Exited? && run(scripts[i], secs).code == 0
    {
      ResultOfSpec(scripts[i], run(scripts[i], secs));
    }
  }
}
