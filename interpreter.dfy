/**
 * `detectPython`: the interpreter names are tried in a fixed order with
 * `<name> --version`, and the first one whose probe succeeds is used. The
 * probe (`execSync`, which throws when the command is missing or exits
 * non-zero) is a parameter: `probe(line)` holds when running `line`
 * succeeded.
 */
module Interpreter {
  import opened Wrappers

  /** The names tried, in order. */
  const Candidates: seq<string> := ["python", "python3", "py"]

  /** The command line a candidate is probed with. */
  function VersionCommand(cmd: string): string
  {
    cmd + " --version"
  }

  predicate Responds(probe: string -> bool, cmd: string)
  {
    probe(VersionCommand(cmd))
  }

  /** The first of `cands` that responds to its version probe. */
  function FirstResponding(cands: seq<string>, probe: string -> bool): (r: Option<string>)
    ensures r.Some? ==> r.value in cands && Responds(probe, r.value)
  {
    if cands == [] then None
    else if Responds(probe, cands[0]) then Some(cands[0])
    else FirstResponding(cands[1..], probe)
  }

  /**
   * `FirstResponding` is a first-match search: it finds nothing exactly
   * when no candidate responds, and what it finds responds and comes after
   * candidates that all failed.
   */
  lemma {:induction false} FirstRespondingIsFirst(cands: seq<string>, probe: string -> bool)
    ensures FirstResponding(cands, probe).None? <==> forall i :: 0 <= i < |cands| ==> !Responds(probe, cands[i])
    ensures FirstResponding(cands, probe).Some? ==>
      exists i :: 0 <= i < |cands| && cands[i] == FirstResponding(cands, probe).value
        && Responds(probe, cands[i]) && forall j :: 0 <= j < i ==> !Responds(probe, cands[j])
  {
    if cands != [] && !Responds(probe, cands[0]) {
      FirstRespondingIsFirst(cands[1..], probe);
      assert forall i :: 1 <= i < |cands| ==> cands[i] == cands[1..][i - 1];
      if FirstResponding(cands[1..], probe).Some? {
        var i :| 0 <= i < |cands[1..]| && cands[1..][i] == FirstResponding(cands[1..], probe).value
          && Responds(probe, cands[1..][i]) && forall j :: 0 <= j < i ==> !Responds(probe, cands[1..][j]);
        assert cands[i + 1] == FirstResponding(cands, probe).value;
      }
    }
  }

  /** The loop of `detectPython`: returns at the first name whose probe succeeds, `null` after the last. */
  method DetectPython(probe: string -> bool) returns (found: Option<string>)
    ensures found == FirstResponding(Candidates, probe)
    ensures found.None? <==> forall i :: 0 <= i < |Candidates| ==> !Responds(probe, Candidates[i])
    ensures found.Some? ==>
      exists i :: 0 <= i < |Candidates| && Candidates[i] == found.value
        && Responds(probe, found.value) && forall j :: 0 <= j < i ==> !Responds(probe, Candidates[j])
  {
    for k := 0 to |Candidates|
      invariant forall j :: 0 <= j < k ==> !Responds(probe, Candidates[j])
      invariant FirstResponding(Candidates[k..], probe) == FirstResponding(Candidates, probe)
    {
      assert Candidates[k..][1..] == Candidates[k + 1..];
      if probe(VersionCommand(Candidates[k])) {
        return Some(Candidates[k]);
      }
    }
    return None;
  }

  /** A host where only the last name is installed gets that name, never an earlier failing one. */
  lemma OnlyLastResponds(probe: string -> bool)
    requires !probe("python --version") && !probe("python3 --version") && probe("py --version")
    ensures FirstResponding(Candidates, probe) == Some("py")
  {
    assert VersionCommand("python") == "python --version";
    assert VersionCommand("python3") == "python3 --version";
    assert VersionCommand("py") == "py --version";
    assert Candidates[1..][1..] == ["py"];
  }
}
