/** The calculation history: a newest-first list of at most five records,
    mirrored to a single storage entry that may be absent. */
module History {
  import opened Wrappers
  import opened Proportion

  /** The most entries the history keeps. */
  const MaxEntries: nat := 5

  /** One finished calculation, as stored: the mode it ran in, the three
      inputs as given, the rounded result, the formula text and the time of
      day it was made (an opaque string). */
  datatype Calculation = Calculation(
    mode: Mode,
    a: real,
    b: real,
    c: real,
    x: real,
    formula: string,
    timestamp: string)

  /** The storage entry for the history: `None` when the key is absent. */
  type Store = Option<seq<Calculation>>

  function Min(m: int, n: int): int
  {
    if m <= n then m else n
  }

  /** Keeps the first `MaxEntries` entries of a list, dropping the rest. */
  function Cap(u: seq<Calculation>): (r: seq<Calculation>)
    ensures |r| == Min(|u|, MaxEntries)
    ensures r <= u
  {
    if |u| > MaxEntries then u[..MaxEntries] else u
  }

  /** Records a calculation: it goes to the front and, when that makes the
      list longer than five, the list is cut back to its first five. */
  function Push(h: seq<Calculation>, rec: Calculation): (r: seq<Calculation>)
    ensures |r| == Min(|h| + 1, MaxEntries)
    ensures r[0] == rec
    ensures r[1..] <= h
    ensures |h| < MaxEntries ==> r[1..] == h
    ensures |h| == MaxEntries ==> r[1..] == h[..MaxEntries - 1]
  {
    Cap([rec] + h)
  }

  /** Reading the storage entry at startup: an absent entry is an empty history. */
  function Load(st: Store): (h: seq<Calculation>)
    ensures st.None? ==> h == []
    ensures st.Some? ==> h == st.value
  {
    match st
    case Some(h) => h
    case None => []
  }

  /** Writing the history to its storage entry. */
  function Save(h: seq<Calculation>): (st: Store)
    ensures Load(st) == h
  {
    Some(h)
  }

  /** The list in the opposite order. */
  function Reverse<T>(s: seq<T>): (r: seq<T>)
    ensures |r| == |s|
    ensures forall i :: 0 <= i < |s| ==> r[i] == s[|s| - 1 - i]
  {
    if |s| == 0 then [] else Reverse(s[1..]) + [s[0]]
  }

  /** Records the calculations `rs` one after another, `rs[0]` first. */
  function PushAll(h: seq<Calculation>, rs: seq<Calculation>): seq<Calculation>
    decreases |rs|
  {
    if |rs| == 0 then h else PushAll(Push(h, rs[0]), rs[1..])
  }

  /** Cutting the tail of a list early does not change its first five entries. */
  lemma CapAbsorbs(v: seq<Calculation>, u: seq<Calculation>)
    ensures Cap(v + Cap(u)) == Cap(v + u)
  {
  }

  /** After one or more recordings the history holds, newest first, the
      five most recent of all calculations ever recorded on top of it. */
  lemma {:induction false} PushAllNewestFirst(h: seq<Calculation>, rs: seq<Calculation>)
    requires |rs| > 0
    ensures PushAll(h, rs) == Cap(Reverse(rs) + h)
    decreases |rs|
  {
    var h' := Push(h, rs[0]);
    assert Reverse(rs) == Reverse(rs[1..]) + [rs[0]];
    if |rs| == 1 {
      assert PushAll(h, rs) == PushAll(h', rs[1..]) == h';
      assert Reverse(rs) + h == [rs[0]] + h;
    } else {
      PushAllNewestFirst(h', rs[1..]);
      calc {
        PushAll(h, rs);
        PushAll(h', rs[1..]);
        Cap(Reverse(rs[1..]) + Cap([rs[0]] + h));
        { CapAbsorbs(Reverse(rs[1..]), [rs[0]] + h); }
        Cap(Reverse(rs[1..]) + ([rs[0]] + h));
        { assert Reverse(rs[1..]) + ([rs[0]] + h) == Reverse(rs) + h; }
        Cap(Reverse(rs) + h);
      }
    }
  }

  /** However many calculations are recorded, the history never holds more than five. */
  lemma PushAllBounded(h: seq<Calculation>, rs: seq<Calculation>)
    requires |h| <= MaxEntries
    ensures |PushAll(h, rs)| <= MaxEntries
  {
    if |rs| > 0 {
      PushAllNewestFirst(h, rs);
    }
  }

  /** Five or more recordings evict everything that was there before: what
      remains is the last five recorded, newest first. */
  lemma PushAllEvictsOld(h: seq<Calculation>, rs: seq<Calculation>)
    requires |rs| >= MaxEntries
    ensures PushAll(h, rs) == Reverse(rs)[..MaxEntries]
  {
    PushAllNewestFirst(h, rs);
    assert (Reverse(rs) + h)[..MaxEntries] == Reverse(rs)[..MaxEntries];
  }
}
