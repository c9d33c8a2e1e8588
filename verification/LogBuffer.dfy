/** The circular buffer that keeps the latest log output. */
module LogBuffer {
  import opened Wrappers

  /** The last n elements, or all of them if there are fewer. */
  function Last(s: seq<Byte>, n: nat): seq<Byte> {
    if |s| <= n then s else s[|s| - n..]
  }

  /** Keeping the last n bytes at every step loses nothing that the last n bytes
      of the whole would have. */
  lemma LastOfLast(a: seq<Byte>, b: seq<Byte>, n: nat)
    ensures Last(Last(a, n) + b, n) == Last(a + b, n)
  {
    if |a| > n && |b| < n {
      assert (Last(a, n) + b)[|b|..] == (a + b)[|a + b| - n..];
    }
  }

  /** Position k places after start on a ring of cap slots. */
  function Around(start: nat, k: nat, cap: nat): (i: nat)
    requires start < cap && k <= cap
    ensures i < cap
  {
    if start + k >= cap then start + k - cap else start + k
  }

  method Advance(start: nat, k: nat, cap: nat) returns (i: nat)
    requires start < cap && k <= cap
    ensures i == Around(start, k, cap)
  {
    OnceAround(start + k, cap);
    i := (start + k) % cap;
  }

  lemma OnceAround(x: nat, cap: nat)
    requires x < 2 * cap
    ensures x % cap == if x >= cap then x - cap else x
  {
    assert x == x / cap * cap + x % cap;
    assert 0 <= x / cap <= 1;
  }

  /** The byte that many places before head. */
  function Back(ring: seq<Byte>, head: nat, back: nat): Byte
    requires head < |ring| && 0 < back <= |ring|
  {
    ring[Around(head, |ring| - back, |ring|)]
  }

  /** The ring ends just before head and its last |h| slots hold h. */
  ghost predicate Holds(ring: seq<Byte>, head: nat, h: seq<Byte>) {
    && head < |ring| && |h| <= |ring|
    && forall back :: 0 < back <= |h| ==> Back(ring, head, back) == h[|h| - back]
  }

  /** How far after head slot j lies. */
  function Offset(head: nat, j: nat, cap: nat): (k: nat)
    requires head < cap && j < cap
    ensures k < cap && Around(head, k, cap) == j
  {
    if j >= head then j - head else j + cap - head
  }

  /** p was written from head on, round the end, and nothing else changed. */
  ghost predicate Wrote(before: seq<Byte>, after: seq<Byte>, head: nat, p: seq<Byte>) {
    && |after| == |before| && head < |before| && |p| < |before|
    && forall j :: 0 <= j < |before| ==>
         after[j] == if Offset(head, j, |before|) < |p| then p[Offset(head, j, |before|)] else before[j]
  }

  /** Counting back from the new end, the last |p| slots hold p. */
  lemma WroteNew(before: seq<Byte>, after: seq<Byte>, head: nat, p: seq<Byte>, back: nat)
    requires Wrote(before, after, head, p) && 0 < back <= |p|
    ensures Back(after, Around(head, |p|, |before|), back) == p[|p| - back]
  {
    var j := Around(Around(head, |p|, |before|), |before| - back, |before|);
    assert Offset(head, j, |before|) == |p| - back;
  }

  /** Further back the slots hold what was there before. */
  lemma WroteOld(before: seq<Byte>, after: seq<Byte>, head: nat, p: seq<Byte>, back: nat)
    requires Wrote(before, after, head, p) && |p| < back <= |before|
    ensures Back(after, Around(head, |p|, |before|), back) == Back(before, head, back - |p|)
  {
    var cap := |before|;
    var j := Around(Around(head, |p|, cap), cap - back, cap);
    assert Offset(head, j, cap) == cap - (back - |p|);
  }

  lemma WroteKeeps(before: seq<Byte>, after: seq<Byte>, head: nat, p: seq<Byte>, h: seq<Byte>)
    requires Holds(before, head, h) && Wrote(before, after, head, p)
    ensures Holds(after, Around(head, |p|, |before|), Last(h + p, |before|))
  {
    var kept := Last(h + p, |before|);
    forall back | 0 < back <= |kept| ensures Back(after, Around(head, |p|, |before|), back) == kept[|kept| - back] {
      if back <= |p| {
        WroteNew(before, after, head, p, back);
      } else {
        WroteOld(before, after, head, p, back);
        assert Back(before, head, back - |p|) == h[|h| - (back - |p|)];
      }
    }
  }

  function Concat(writes: seq<seq<Byte>>): seq<Byte> {
    if writes == [] then [] else Concat(writes[..|writes| - 1]) + writes[|writes| - 1]
  }

  /** The history when only n bytes are kept after every write. */
  function HistoryAfter(writes: seq<seq<Byte>>, n: nat): seq<Byte> {
    if writes == [] then [] else Last(HistoryAfter(writes[..|writes| - 1], n) + writes[|writes| - 1], n)
  }

  /** Dropping old bytes write by write leaves the last n bytes of all writes together. */
  lemma {:induction false} HistoryIsTheLastBytes(writes: seq<seq<Byte>>, n: nat)
    ensures HistoryAfter(writes, n) == Last(Concat(writes), n)
  {
    if writes == [] {
    } else {
      HistoryIsTheLastBytes(writes[..|writes| - 1], n);
      LastOfLast(Concat(writes[..|writes| - 1]), writes[|writes| - 1], n);
    }
  }

  /** Reading |h| slots from where the history starts gives the history. */
  lemma Unrolled(ring: seq<Byte>, head: nat, h: seq<Byte>, start: nat)
    requires Holds(ring, head, h) && start == Around(head, |ring| - |h|, |ring|)
    ensures h == if start + |h| <= |ring| then ring[start..start + |h|]
                 else ring[start..] + ring[..|h| - (|ring| - start)]
  {
    var cap := |ring|;
    var read := if start + |h| <= cap then ring[start..start + |h|] else ring[start..] + ring[..|h| - (cap - start)];
    forall k | 0 <= k < |h| ensures read[k] == h[k] {
      assert Back(ring, head, |h| - k) == h[k];
    }
  }

  class CircularBuffer {
    const data: array<Byte>
    var head: nat
    var size: nat
    /** Everything ever written. */
    ghost var written: seq<Byte>

    ghost predicate Valid()
      reads this, data
    {
      && size == |Last(written, data.Length)|
      && (data.Length == 0 ==> head == 0)
      && (data.Length > 0 ==> Holds(data[..], head, Last(written, data.Length)))
    }

    constructor (capacity: nat)
      ensures Valid() && written == [] && data.Length == capacity && fresh(data)
    {
      data := new Byte[capacity](_ => 0);
      head, size, written := 0, 0, [];
    }

    method Write(p: seq<Byte>)
      requires Valid()
      modifies this, data
      ensures Valid() && written == old(written) + p
      ensures Last(written, data.Length) == Last(old(Last(written, data.Length)) + p, data.Length)
    {
      LastOfLast(written, p, data.Length);
      if |p| == 0 {
        assert written + p == written;
        return;
      }
      var cap := data.Length;
      if |p| >= cap {
        Replace(p);
        return;
      }
      ghost var before := data[..];
      ghost var start := head;
      Place(p);
      WroteKeeps(before, data[..], start, p, Last(written, cap));
      size := if size + |p| > cap then cap else size + |p|;
      written := written + p;
    }

    /** Writes at least as many bytes as there are slots: only the last stay. */
    method Replace(p: seq<Byte>)
      requires Valid() && |p| >= data.Length
      modifies this, data
      ensures Valid() && written == old(written) + p
    {
      var cap := data.Length;
      var tail := p[|p| - cap..];
      forall j | 0 <= j < cap {
        data[j] := tail[j];
      }
      assert data[..] == tail;
      head, size := 0, cap;
      written := written + p;
    }

    /** Writes fewer bytes than there are slots, round the end where needed. */
    method Place(p: seq<Byte>)
      requires head < data.Length && |p| < data.Length
      modifies this`head, data
      ensures Wrote(old(data[..]), data[..], old(head), p) && head == Around(old(head), |p|, data.Length)
    {
      var cap := data.Length;
      var start := head;
      var firstPart := cap - head;
      if firstPart >= |p| {
        forall j | start <= j < start + |p| {
          data[j] := p[j - start];
        }
        head := Advance(head, |p|, cap);
      } else {
        forall j | start <= j < cap {
          data[j] := p[j - start];
        }
        forall j | 0 <= j < |p| - firstPart {
          data[j] := p[firstPart + j];
        }
        head := |p| - firstPart;
      }
    }

    /** The last bytes written, up to the capacity. */
    method GetHistory() returns (result: seq<Byte>)
      requires Valid()
      ensures result == Last(written, data.Length)
    {
      if size == 0 {
        return [];
      }
      var cap := data.Length;
      var start := Advance(head, cap - size, cap);
      if start + size <= cap {
        result := data[start..start + size];
      } else {
        result := data[start..] + data[..size - (cap - start)];
      }
      Unrolled(data[..], head, Last(written, cap), start);
    }
  }
}
