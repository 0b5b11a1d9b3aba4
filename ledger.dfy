/** `test_results`: the outcome ledger. A Python dict keeps its keys in
    insertion order and assigning to an existing key keeps that key's
    position, so the ledger is a sequence of (phase name, status line)
    entries updated with exactly that rule. */
module Ledger {
  import opened Types

  datatype Entry = Entry(name: string, line: string)

  /** The check mark that opens a successful status line. */
  const PassMark: char := '\U{2705}'
  /** The cross that opens a failed status line. */
  const FailMark: char := '\U{274C}'

  /** A line that opens with the check mark: how the report classifies an entry as passed. */
  predicate IsPass(line: string)
  {
    |line| > 0 && line[0] == PassMark
  }

  /** The string `log_test_result` stores: the status, a colon, the message. */
  function StatusLine(success: bool, message: string): (line: string)
    ensures IsPass(line) <==> success
    ensures |line| > |message| && line[|line| - |message|..] == message
  {
    var status := if success then [PassMark] + " SUCCESS" else [FailMark] + " FAILED";
    assert (status + ": " + message)[|status| + 2..] == message;
    status + ": " + message
  }

  function Names(l: seq<Entry>): (ns: seq<string>)
    ensures |ns| == |l|
  {
    if l == [] then [] else [l[0].name] + Names(l[1..])
  }

  predicate Distinct(ns: seq<string>)
  {
    forall i, j :: 0 <= i < j < |ns| ==> ns[i] != ns[j]
  }

  /** The line stored under a name: that of the first entry with the name, if any. */
  function Lookup(l: seq<Entry>, name: string): (r: Option<string>)
    ensures r.None? <==> name !in Names(l)
  {
    if l == [] then None
    else if l[0].name == name then Some(l[0].line)
    else Lookup(l[1..], name)
  }

  /** Assigning a line to a name: the entry is replaced in place when the
      name is already present, and a new entry is appended at the end otherwise. */
  function Record(l: seq<Entry>, name: string, line: string): (r: seq<Entry>)
    ensures Lookup(r, name) == Some(line)
    ensures forall n :: n != name ==> Lookup(r, n) == Lookup(l, n)
    ensures Names(r) == if name in Names(l) then Names(l) else Names(l) + [name]
  {
    if l == [] then [Entry(name, line)]
    else if l[0].name == name then
      var r := [Entry(name, line)] + l[1..];
      assert r[1..] == l[1..] && Names(r) == [name] + Names(l[1..]) == Names(l);
      r
    else
      var rest := Record(l[1..], name, line);
      var r := [l[0]] + rest;
      assert r[1..] == rest && Names(r) == [l[0].name] + Names(rest);
      assert Names(l) == [l[0].name] + Names(l[1..]);
      r
  }

  /** Recording never introduces a second entry with the same name. */
  lemma RecordKeepsDistinct(l: seq<Entry>, name: string, line: string)
    requires Distinct(Names(l))
    ensures Distinct(Names(Record(l, name, line)))
  {
    var ns := Names(l);
    if name !in ns {
      var rs := ns + [name];
      forall i, j | 0 <= i < j < |rs|
        ensures rs[i] != rs[j]
      {
        if j == |ns| {
          assert rs[i] == ns[i];
        }
      }
    }
  }

  /** In a ledger with distinct names, each entry is the one its name looks up. */
  lemma {:induction false} LookupAt(l: seq<Entry>, i: nat)
    requires Distinct(Names(l)) && i < |l|
    ensures Names(l)[i] == l[i].name && Lookup(l, l[i].name) == Some(l[i].line)
  {
    assert Names(l) == [l[0].name] + Names(l[1..]);
    if i > 0 {
      assert Distinct(Names(l[1..])) by {
        forall a, b | 0 <= a < b < |l| - 1
          ensures Names(l[1..])[a] != Names(l[1..])[b]
        {
          assert Names(l[1..])[a] == Names(l)[a + 1] && Names(l[1..])[b] == Names(l)[b + 1];
        }
      }
      LookupAt(l[1..], i - 1);
      assert l[1..][i - 1] == l[i] && Names(l)[i] == Names(l[1..])[i - 1];
      assert l[0].name == Names(l)[0] != Names(l)[i];
    }
  }
}
