/**
 * A bounds-checked linear memory over the addresses `start..end` (both
 * inclusive). The backing list starts out empty; `Linearize` and `Rand`
 * append to it, `Write` overwrites one element in place.
 */
module Memory {
  import opened Common

  /** The addresses `lo, lo + 1, ..., hi` in order; empty when `hi < lo`. */
  function Span(lo: int, hi: int): seq<int>
    decreases hi - lo
  {
    if hi < lo then [] else Span(lo, hi - 1) + [hi]
  }

  /** `Span(lo, hi)` has one element per address and the i-th is `lo + i`. */
  lemma {:induction false} SpanAt(lo: int, hi: int)
    ensures |Span(lo, hi)| == if hi < lo then 0 else hi - lo + 1
    ensures forall i :: 0 <= i < |Span(lo, hi)| ==> Span(lo, hi)[i] == lo + i
    decreases hi - lo
  {
    if lo <= hi {
      SpanAt(lo, hi - 1);
    }
  }

  class Memory {
    const start: int
    const end: int
    var data: seq<int>

    constructor (start: int, end: int)
      ensures this.start == start && this.end == end
      ensures data == []
    {
      this.start := start;
      this.end := end;
      data := [];
    }

    /** The number of addresses; negative when `end < start - 1`. */
    function Length(): (n: int)
      ensures (if n < 0 then 0 else n) == |Span(start, end)|
    {
      SpanAt(start, end);
      end - start + 1
    }

    /** The range check every access makes first. */
    function Check(addr: int): (s: Status)
      ensures s == Pass <==> 0 <= addr - start < Length()
      ensures s.Fail? ==> s.fault == AssertionError
    {
      if addr >= start && addr <= end then Pass else Fail(AssertionError)
    }

    /**
     * The value stored for `addr`. An address inside the range still raises
     * `IndexError` while `data` has not been filled up to its offset.
     */
    function Read(addr: int): (r: Result<int>)
      reads this
      ensures r.Ok? <==> Check(addr) == Pass && addr - start < |data|
      ensures r.Ok? ==> r.value == data[addr - start]
      ensures Check(addr).Fail? ==> r == Err(AssertionError)
      ensures Check(addr) == Pass && addr - start >= |data| ==> r == Err(IndexError)
    {
      match Check(addr)
      case Fail(f) => Err(f)
      case Pass =>
        if addr - start < |data| then Ok(data[addr - start]) else Err(IndexError)
    }

    /** Appends the addresses themselves, `start` to `end` in order. */
    method Linearize()
      modifies this
      ensures data == old(data) + Span(start, end)
      ensures |data| == |old(data)| + (if Length() < 0 then 0 else Length())
      ensures forall i :: 0 <= i < |old(data)| ==> data[i] == old(data)[i]
      ensures forall i :: |old(data)| <= i < |data| ==> data[i] == start + (i - |old(data)|)
    {
      var i := start;
      while i <= end
        invariant start <= i <= if end < start then start else end + 1
        invariant data == old(data) + Span(start, i - 1)
        decreases end - i
      {
        data := data + [i];
        i := i + 1;
      }
      SpanAt(start, end);
    }

    /** Appends `Length()` values, each drawn from `0..100`. */
    method Rand()
      modifies this
      ensures |data| == |old(data)| + (if Length() < 0 then 0 else Length())
      ensures data[..|old(data)|] == old(data)
      ensures forall i :: |old(data)| <= i < |data| ==> 0 <= data[i] <= 100
    {
      var i := 0;
      while i < Length()
        invariant 0 <= i <= if Length() < 0 then 0 else Length()
        invariant |data| == |old(data)| + i
        invariant data[..|old(data)|] == old(data)
        invariant forall j :: |old(data)| <= j < |data| ==> 0 <= data[j] <= 100
      {
        var v :| 0 <= v <= 100;   // a random value from 0 to 100
        data := data + [v];
        i := i + 1;
      }
    }

    /** Overwrites the value stored for `addr`, in place. */
    method Write(addr: int, v: int) returns (s: Status)
      modifies this
      ensures s == Pass <==> old(Read(addr)).Ok?
      ensures Check(addr).Fail? ==> s == Fail(AssertionError)
      ensures Check(addr) == Pass && addr - start >= |old(data)| ==> s == Fail(IndexError)
      ensures s.Fail? ==> data == old(data)
      ensures s == Pass ==> data == old(data)[addr - start := v]
      ensures s == Pass ==> Read(addr) == Ok(v)
      ensures forall a :: a != addr ==> Read(a) == old(Read(a))
    {
      s := Check(addr);
      if s == Pass {
        if addr - start < |data| {
          data := data[addr - start := v];
        } else {
          s := Fail(IndexError);
        }
      }
    }
  }

  /** After `Linearize` on an empty memory every address reads back as itself. */
  lemma ReadLinearized(m: Memory, addr: int)
    requires m.data == Span(m.start, m.end)
    requires m.start <= addr <= m.end
    ensures m.Read(addr) == Ok(addr)
  {
    SpanAt(m.start, m.end);
  }
}
