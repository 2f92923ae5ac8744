/** The table of string literals: one number and one datum for equal bytes. */
module Strings {
  import opened Literals

  /** The table holds this many literals. */
  const CAPACITY: nat := 1024

  /** The literals stored, entry `i` having number `i`, and how many numbers were given out. */
  datatype Table = Table(stored: seq<string>, total: nat)

  /** The first place of a literal in the table, or the table's length. */
  function Find(stored: seq<string>, s: string, i: nat): (k: nat)
    requires i <= |stored|
    ensures i <= k <= |stored| && (k < |stored| ==> stored[k] == s)
    ensures forall j :: i <= j < k ==> stored[j] != s
    decreases |stored| - i
  {
    if i == |stored| || stored[i] == s then i else Find(stored, s, i + 1)
  }

  /** A literal gets the number of an equal stored one, else the next number, and is stored while there is room. */
  function Intern(t: Table, s: string): (Table, nat) {
    var k := Find(t.stored, s, 0);
    if k < |t.stored| then (t, k)
    else (Table(if |t.stored| < CAPACITY then t.stored + [s] else t.stored, t.total + 1), t.total)
  }

  /** All literals of a program in the order they are visited, and their numbers. */
  function InternAll(t: Table, lits: seq<string>): (r: (Table, seq<nat>))
    ensures |r.1| == |lits|
    decreases |lits|
  {
    if lits == [] then (t, []) else
      var (t1, id) := Intern(t, lits[0]);
      var (t2, ids) := InternAll(t1, lits[1..]);
      (t2, [id] + ids)
  }

  const EMPTY: Table := Table([], 0)

  /** Numbers are places in the table until it is full; no literal is stored twice. */
  ghost predicate Sane(t: Table) {
    |t.stored| <= CAPACITY && |t.stored| <= t.total
    && (|t.stored| < CAPACITY ==> t.total == |t.stored|)
    && forall i, j :: 0 <= i < j < |t.stored| ==> t.stored[i] != t.stored[j]
  }

  /** The literal's number leads to its bytes in the final table. */
  predicate Leads(t: Table, id: nat, s: string) { id < |t.stored| && t.stored[id] == s }

  function Elements(ss: seq<string>): set<string> { set s | s in ss }

  lemma InternStep(t: Table, s: string)
    requires Sane(t)
    ensures var (t1, id) := Intern(t, s);
            Sane(t1) && t.stored <= t1.stored && Elements(t1.stored) <= Elements(t.stored) + {s}
            && (Leads(t1, id, s) || (s !in t1.stored && |t1.stored| == CAPACITY))
  {
    var k := Find(t.stored, s, 0);
    if k == |t.stored| { assert s !in t.stored; }
  }

  /**
   Over a whole program: the table keeps its shape, grows by literals of the program only, and numbers lead
   home while there was room.
   */
  lemma {:induction false} InternRun(t: Table, lits: seq<string>)
    requires Sane(t)
    ensures var (u, ids) := InternAll(t, lits);
            Sane(u) && t.stored <= u.stored && Elements(u.stored) <= Elements(t.stored) + Elements(lits)
            && forall i :: 0 <= i < |lits| ==>
              Leads(u, ids[i], lits[i]) || (lits[i] !in u.stored && |u.stored| == CAPACITY)
    decreases |lits|
  {
    hide Intern, Find;
    if lits != [] {
      var (t1, id) := Intern(t, lits[0]);
      InternStep(t, lits[0]);
      InternRun(t1, lits[1..]);
      var (u, ids) := InternAll(t1, lits[1..]);
      assert Elements(lits) == {lits[0]} + Elements(lits[1..]);
      if !Leads(t1, id, lits[0]) { assert u.stored == t1.stored; }
      forall i | 0 <= i < |lits|
        ensures Leads(u, ([id] + ids)[i], lits[i]) || (lits[i] !in u.stored && |u.stored| == CAPACITY)
      {
        if i > 0 { assert lits[i] == lits[1..][i - 1] && ([id] + ids)[i] == ids[i - 1]; }
      }
    }
  }

  lemma {:induction false} DistinctCount(ss: seq<string>)
    requires forall i, j :: 0 <= i < j < |ss| ==> ss[i] != ss[j]
    ensures |Elements(ss)| == |ss|
  {
    if ss != [] {
      var n := |ss| - 1;
      DistinctCount(ss[..n]);
      assert ss == ss[..n] + [ss[n]];
      assert Elements(ss) == Elements(ss[..n]) + {ss[n]} && ss[n] !in Elements(ss[..n]);
    }
  }

  lemma Larger(a: set<string>, b: set<string>)
    requires a <= b
    ensures |a| <= |b| && (|a| == |b| ==> a == b)
  {
    assert b == a + (b - a);
    if |a| == |b| { assert |b - a| == 0; }
  }

  /**
   Every reference to a string names a datum with its bytes, equal literals and no others
   sharing one, exactly when the program has at most 1024 different literals.
   */
  lemma InterningExact(lits: seq<string>)
    ensures
      var (t, ids) := InternAll(EMPTY, lits);
      (forall i :: 0 <= i < |lits| ==> Leads(t, ids[i], lits[i])) <==> |Elements(lits)| <= CAPACITY
    ensures
      var (t, ids) := InternAll(EMPTY, lits);
      |Elements(lits)| <= CAPACITY ==>
        Elements(t.stored) == Elements(lits) && |t.stored| == |Elements(lits)|
        && forall i, j :: 0 <= i < |lits| && 0 <= j < |lits| ==> (ids[i] == ids[j] <==> lits[i] == lits[j])
  {
    hide InternAll;
    InternRun(EMPTY, lits);
    var (t, ids) := InternAll(EMPTY, lits);
    DistinctCount(t.stored);
    Larger(Elements(t.stored), Elements(lits));
    if |Elements(lits)| <= CAPACITY {
      forall i | 0 <= i < |lits| ensures Leads(t, ids[i], lits[i]) {
        assert lits[i] in Elements(lits);
      }
    }
    if forall i :: 0 <= i < |lits| ==> Leads(t, ids[i], lits[i]) {
      forall s | s in lits ensures s in t.stored {
        var i :| 0 <= i < |lits| && lits[i] == s;
        assert Leads(t, ids[i], lits[i]);
      }
      Larger(Elements(lits), Elements(t.stored));
    }
  }

  /** The bytes of a datum, written one at a time. */
  method Escape(bytes: string) returns (out: string)
    ensures out == EscapeText(bytes)
  {
    hide EscapeByte;
    out := "";
    assert bytes[0..] == bytes && "" + EscapeText(bytes) == EscapeText(bytes);
    for k := 0 to |bytes|
      invariant out + EscapeText(bytes[k..]) == EscapeText(bytes)
    {
      assert bytes[k..][1..] == bytes[k + 1..];
      assert out + (EscapeByte(bytes[k]) + EscapeText(bytes[k + 1..]))
          == (out + EscapeByte(bytes[k])) + EscapeText(bytes[k + 1..]);
      out := out + EscapeByte(bytes[k]);
    }
    assert bytes[|bytes|..] == [] && out + "" == out;
  }
}
