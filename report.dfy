/** The figures `generate_comprehensive_report` derives from the ledger:
    totals, passed and failed counts, and the three-tier readiness verdict. */
module Report {
  import opened Ledger

  datatype Readiness = Excellent | Good | NeedsWork

  datatype Summary = Summary(total: nat, passed: nat, failed: nat, readiness: Readiness)

  /** The number of entries whose line starts with the check mark. */
  function PassedCount(l: seq<Entry>): (n: nat)
    ensures n <= |l|
  {
    if l == [] then 0
    else (if IsPass(l[0].line) then 1 else 0) + PassedCount(l[1..])
  }

  /** The readiness tier for a failure count: none, at most two, or more. */
  function Tier(failed: nat): (r: Readiness)
    ensures r == Excellent <==> failed == 0
    ensures r == Good <==> 1 <= failed <= 2
    ensures r == NeedsWork <==> failed > 2
  {
    if failed == 0 then Excellent
    else if failed <= 2 then Good
    else NeedsWork
  }

  /** The report's figures: `failed` is what is left of the total after the passes. */
  function Summarize(l: seq<Entry>): (s: Summary)
    ensures s.passed + s.failed == s.total == |l|
    ensures s.readiness == Tier(s.failed)
  {
    var passed := PassedCount(l);
    Summary(|l|, passed, |l| - passed, Tier(|l| - passed))
  }

  /** No failure is counted exactly when every recorded line is a pass
      (the case in which the success rate is one hundred per cent). */
  lemma {:induction false} NoFailureIffAllPass(l: seq<Entry>)
    ensures Summarize(l).failed == 0 <==> forall k :: 0 <= k < |l| ==> IsPass(l[k].line)
  {
    if l != [] {
      NoFailureIffAllPass(l[1..]);
      assert forall k :: 1 <= k < |l| ==> l[k] == l[1..][k - 1];
    }
  }

  /** A single failed entry under any name rules out the top tier. */
  lemma FailedEntryRulesOutExcellent(l: seq<Entry>, name: string)
    requires Lookup(l, name).Some? && !IsPass(Lookup(l, name).value)
    ensures Summarize(l).failed >= 1 && Summarize(l).readiness != Excellent
  {
    var k := LookupIndex(l, name);
    NoFailureIffAllPass(l);
  }

  /** Where `Lookup` finds its line. */
  lemma {:induction false} LookupIndex(l: seq<Entry>, name: string) returns (k: nat)
    requires Lookup(l, name).Some?
    ensures k < |l| && l[k].name == name && l[k].line == Lookup(l, name).value
  {
    if l[0].name == name {
      k := 0;
    } else {
      var k' := LookupIndex(l[1..], name);
      k := k' + 1;
    }
  }
}
