/** Deterministic acceptance checks: the frozen conditions that every promotion
    step re-verifies against the files it is about to trust. */
module Acceptance {
  import opened Prelude
  import opened Git

  datatype Check =
    | ExactContent(path: Path, expected: string)
    | FileExists(path: Path)
    | FileContains(path: Path, wanted: string)
    | FileNotContains(path: Path, unwanted: string)
    | CommandSucceeds(argv: seq<string>, timeout: nat)

  datatype Evidence =
    | FilePassed(check: Check, size: nat)
    | CommandPassed(argv: seq<string>, output: string)

  /** The five points of the protocol at which the checks run. */
  datatype CheckPoint = Candidate | PostApply | CommitPreflight | PreCommit | PostCommit

  /** What a test command prints at a check point, or None if it does not succeed.
      Commands are not assumed to print the same thing twice. */
  type CommandOracle = (CheckPoint, seq<string>, Tree) -> Option<string>

  predicate HasSubstring(text: string, part: string) {
    exists k :: 0 <= k <= |text| && part <= text[k..]
  }

  function RunFileCheck(t: Tree, check: Check): Option<Evidence>
    requires !check.CommandSucceeds?
  {
    if check.path !in t then None
    else if check.FileExists? then Some(FilePassed(check, 0))
    else
      match t[check.path]
      case Binary(_) => None
      case Text(raw) =>
        var text := Newlines(raw);
        var holds :=
          match check
          case ExactContent(_, expected) => text == expected
          case FileContains(_, wanted) => HasSubstring(text, wanted)
          case FileNotContains(_, unwanted) => !HasSubstring(text, unwanted)
          case _ => true;
        if holds then Some(FilePassed(check, |text|)) else None
  }

  function RunCheck(oracle: CommandOracle, point: CheckPoint, t: Tree, check: Check): Option<Evidence> {
    match check
    case CommandSucceeds(argv, _) =>
      (match oracle(point, argv, t)
       case None => None
       case Some(output) => Some(CommandPassed(argv, output)))
    case _ => RunFileCheck(t, check)
  }

  /** Runs the checks in order and stops at the first that fails. */
  function RunChecks(oracle: CommandOracle, point: CheckPoint, t: Tree, checks: seq<Check>): Option<seq<Evidence>> {
    if checks == [] then Some([])
    else
      match RunCheck(oracle, point, t, checks[0])
      case None => None
      case Some(evidence) =>
        match RunChecks(oracle, point, t, checks[1..])
        case None => None
        case Some(rest) => Some([evidence] + rest)
  }

  /** The loop form, as `verify_deterministic_acceptance` runs it. */
  method Verify(oracle: CommandOracle, point: CheckPoint, t: Tree, checks: seq<Check>)
    returns (verification: Option<seq<Evidence>>)
    ensures verification == RunChecks(oracle, point, t, checks)
  {
    var passed: seq<Evidence> := [];
    ghost var all := RunChecks(oracle, point, t, checks);
    assert checks[0..] == checks;
    assert Prepended([], all) == all by {
      assert all.Some? ==> [] + all.value == all.value;
    }
    for k := 0 to |checks|
      invariant Prepended(passed, RunChecks(oracle, point, t, checks[k..])) == all
    {
      assert checks[k..][1..] == checks[k + 1..];
      var one := RunCheck(oracle, point, t, checks[k]);
      if one.None? {
        return None;
      }
      PrependedStep(passed, one.value, RunChecks(oracle, point, t, checks[k + 1..]));
      passed := passed + [one.value];
    }
    assert checks[|checks|..] == [] && passed + [] == passed;
    return Some(passed);
  }

  ghost function Prepended(passed: seq<Evidence>, rest: Option<seq<Evidence>>): Option<seq<Evidence>> {
    if rest.Some? then Some(passed + rest.value) else None
  }

  lemma PrependedStep(passed: seq<Evidence>, one: Evidence, rest: Option<seq<Evidence>>)
    ensures Prepended(passed, Prepended([one], rest)) == Prepended(passed + [one], rest)
  {
    if rest.Some? {
      assert passed + ([one] + rest.value) == passed + [one] + rest.value;
    }
  }

  /** The checks pass exactly when every one of them passes. */
  lemma {:induction false} ChecksPassTogether(oracle: CommandOracle, point: CheckPoint, t: Tree, checks: seq<Check>)
    ensures RunChecks(oracle, point, t, checks).Some? <==>
            forall k :: 0 <= k < |checks| ==> RunCheck(oracle, point, t, checks[k]).Some?
  {
    if checks != [] {
      ChecksPassTogether(oracle, point, t, checks[1..]);
      if RunChecks(oracle, point, t, checks).Some? {
        forall k | 0 <= k < |checks|
          ensures RunCheck(oracle, point, t, checks[k]).Some?
        {
          if k > 0 {
            assert checks[k] == checks[1..][k - 1];
          }
        }
      } else {
        if RunCheck(oracle, point, t, checks[0]).Some? {
          var j :| 0 <= j < |checks[1..]| && RunCheck(oracle, point, t, checks[1..][j]).None?;
          assert checks[1..][j] == checks[j + 1];
        }
      }
    }
  }

  function CheckedPaths(checks: seq<Check>): set<Path> {
    set k | 0 <= k < |checks| && !checks[k].CommandSucceeds? :: checks[k].path
  }

  /** A frozen list of checks is usable when it is nonempty, stays inside the
      authorized paths and repeats no check. */
  predicate Normalized(checks: seq<Check>, authorized: set<Path>) {
    && checks != []
    && CheckedPaths(checks) <= authorized
    && (forall i, j :: 0 <= i < j < |checks| ==> checks[i] != checks[j])
  }

  /** File checks look at decoded text, so they cannot tell a file from its
      newline-normalized copy except by the evidence they already agree on. */
  lemma FileCheckIgnoresNewlineStyle(a: Tree, b: Tree, check: Check)
    requires !check.CommandSucceeds? && check.path in a && check.path in b
    requires AsWritten(a[check.path]) == Some(b[check.path])
    ensures RunFileCheck(a, check) == RunFileCheck(b, check)
  {
    NewlinesFixed(a[check.path].text);
  }


  // ----- what the checks say of a file -----

  ghost predicate Contains(text: string, part: string) {
    exists before: string, after: string :: text == before + part + after
  }

  lemma ContainsExactly(text: string, part: string)
    ensures HasSubstring(text, part) <==> Contains(text, part)
  {
    if HasSubstring(text, part) {
      var k :| 0 <= k <= |text| && part <= text[k..];
      assert text == text[..k] + part + text[k..][|part|..];
    }
    if Contains(text, part) {
      var before: string, after: string :| text == before + part + after;
      assert text[|before|..] == part + after;
    }
  }

  /** Exactly which files pass which check: any file exists, and a text, read with universal newlines, is,
      holds or does not hold what the check says. */
  lemma FileCheckExactly(t: Tree, check: Check)
    requires !check.CommandSucceeds?
    ensures RunFileCheck(t, check).Some? <==>
      && check.path in t
      && (check.FileExists? ||
          (&& t[check.path].Text?
           && var text := Newlines(t[check.path].text);
              && (check.ExactContent? ==> text == check.expected)
              && (check.FileContains? ==> Contains(text, check.wanted))
              && (check.FileNotContains? ==> !Contains(text, check.unwanted))))
  {
    if check.path in t && t[check.path].Text? {
      var text := Newlines(t[check.path].text);
      if check.FileContains? {
        ContainsExactly(text, check.wanted);
      }
      if check.FileNotContains? {
        ContainsExactly(text, check.unwanted);
      }
    }
  }

  /** The evidence is one piece for each check, in order, and is what that check alone gives. */
  lemma {:induction false} EvidenceInOrder(oracle: CommandOracle, point: CheckPoint, t: Tree, checks: seq<Check>)
    requires RunChecks(oracle, point, t, checks).Some?
    ensures var evidence := RunChecks(oracle, point, t, checks).value;
      && |evidence| == |checks|
      && forall k :: 0 <= k < |checks| ==>
           match checks[k]
           case CommandSucceeds(argv, _) => oracle(point, argv, t).Some? && evidence[k] == CommandPassed(argv, oracle(point, argv, t).value)
           case _ => evidence[k].FilePassed? && evidence[k].check == checks[k]
  {
    if checks != [] {
      EvidenceInOrder(oracle, point, t, checks[1..]);
      assert forall k :: 0 < k < |checks| ==> checks[k] == checks[1..][k - 1];
    }
  }
}
