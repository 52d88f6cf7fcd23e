/**
 The size-capped response stream: a poll state machine with u64 counters, proved to
 deliver the body if it fits and otherwise its first `cap` bytes and the marker.

 The upstream is the list of results its polls give; it ends when the list does.
 Any `Pending` and any error in it is passed on.
 */
module SizeCap {
  import opened Prelude

  type Bytes = seq<Byte>

  function SaturatingSub(a: U64, b: U64): U64 {
    if a < b then 0 else a - b
  }

  function Ascii(text: string): Bytes {
    seq(|text|, i requires 0 <= i < |text| => if text[i] as int < 256 then text[i] as int else 0)
  }

  const STREAM_TRUNCATION_MARKER: Bytes := Ascii("\n{\"_locksmith\":\"response_size_exceeded\"}\n")

  datatype Poll = Pending | Chunk(data: Bytes) | Failed(error: string) | End

  // The buffered check of `apply_non_streaming`.
  predicate SizeExceeded(cap: Option<U64>, body: Bytes) {
    cap.Some? && |body| > cap.value
  }

  // ---- The adapter ---------------------------------------------------------

  // `callback` is the not yet consumed `on_truncate`; `fired` logs its calls.
  datatype State = State(
    upstream: seq<Poll>,
    cap: Option<U64>,
    seen: U64,
    truncated: bool,
    marker: Option<Bytes>,
    callback: bool,
    fired: seq<U64>)

  function New(upstream: seq<Poll>, cap: Option<U64>): State {
    State(upstream, cap, 0, false, None, true, [])
  }

  ghost predicate Sound(s: State) {
    && (s.cap.Some? ==> s.seen <= s.cap.value)
    && (s.truncated <==> !s.callback)
    && (s.marker.Some? ==> s.truncated && s.marker.value == STREAM_TRUNCATION_MARKER)
  }

  function PollUpstream(s: State): (Poll, State) {
    if s.upstream == [] then (End, s) else (s.upstream[0], s.(upstream := s.upstream[1..]))
  }

  function FireTruncation(s: State): State {
    s.(truncated := true,
       fired := if s.callback then s.fired + [s.seen] else s.fired,
       callback := false,
       marker := Some(STREAM_TRUNCATION_MARKER))
  }

  function PollNext(s: State): (Poll, State)
    requires Sound(s)
  {
    if s.marker.Some? then (Chunk(s.marker.value), s.(marker := None))
    else if s.truncated then (End, s)
    else
      var (item, rest) := PollUpstream(s);
      if s.cap.None? || !item.Chunk? then (item, rest)
      else
        var total := SaturatingAdd(s.seen, |item.data|);
        if total <= s.cap.value then (item, rest.(seen := total))
        else
          var allowed := SaturatingSub(s.cap.value, s.seen);
          (Chunk(item.data[..allowed]), FireTruncation(rest.(seen := s.cap.value)))
  }

  class SizeCappedStream {
    var inner: seq<Poll>
    const cap: Option<U64>
    var seen: U64
    var truncated: bool
    var pendingMarker: Option<Bytes>
    var onTruncate: bool
    var fired: seq<U64>

    ghost function Abstract(): State reads this {
      State(inner, cap, seen, truncated, pendingMarker, onTruncate, fired)
    }

    constructor (inner: seq<Poll>, cap: Option<U64>)
      ensures Abstract() == New(inner, cap) && Sound(Abstract())
    {
      this.inner, this.cap, seen, truncated := inner, cap, 0, false;
      pendingMarker, onTruncate, fired := None, true, [];
    }

    // `on_truncate` is consumed by its call: the first truncation reports the bytes seen,
    // a further one would report nothing, and either queues the marker for the next poll.
    method Truncate(prefix: Bytes) returns (yielded: Bytes)
      modifies this
      ensures yielded == prefix
      ensures Abstract() == FireTruncation(old(Abstract()))
      ensures old(Sound(Abstract())) ==>
                && Sound(Abstract())
                && PollNext(Abstract()).0 == Chunk(STREAM_TRUNCATION_MARKER)
                && PollNext(PollNext(Abstract()).1).0 == End
      ensures fired == old(fired) + (if old(onTruncate) then [old(seen)] else [])
      ensures FireTruncation(Abstract()) == Abstract()
    {
      truncated := true;
      if onTruncate {
        onTruncate, fired := false, fired + [seen];
      }
      pendingMarker := Some(STREAM_TRUNCATION_MARKER);
      return prefix;
    }

    // One poll. The slice taken of the crossing chunk is never out of range, and the
    // callback runs on this poll only if it never ran before.
    method Poll() returns (item: Poll)
      requires Sound(Abstract())
      modifies this
      ensures Sound(Abstract())
      ensures (item, Abstract()) == PollNext(old(Abstract()))
      ensures fired == old(fired) || (!old(truncated) && truncated && fired == old(fired) + [cap.value])
    {
      if pendingMarker.Some? {
        item := Chunk(pendingMarker.value);
        pendingMarker := None;
        return;
      }
      if truncated {
        return End;
      }
      if inner == [] {
        return End;
      }
      item := inner[0];
      inner := inner[1..];
      if cap.None? || !item.Chunk? {
        return;
      }
      var total := SaturatingAdd(seen, |item.data|);
      if total <= cap.value {
        seen := total;
      } else {
        var allowed := SaturatingSub(cap.value, seen);
        var prefix := item.data[..allowed];
        seen := cap.value;
        var yielded := Truncate(prefix);
        item := Chunk(yielded);
      }
    }
  }

  // ---- A whole response ----------------------------------------------------

  // The consumer polls until the stream ends: everything it is given, and the
  // final state.
  function Drain(s: State): (seq<Poll>, State)
    requires Sound(s)
    decreases |s.upstream|, s.marker.Some?, !s.truncated
  {
    var (item, next) := PollNext(s);
    if item.End? then ([End], next)
    else
      var (items, last) := Drain(next);
      ([item] + items, last)
  }

  function Data(items: seq<Poll>): Bytes {
    if items == [] then []
    else (if items[0].Chunk? then items[0].data else []) + Data(items[1..])
  }

  // What the upstream delivers up to its end.
  function Delivered(upstream: seq<Poll>): seq<Poll> {
    if upstream == [] || upstream[0].End? then [] else [upstream[0]] + Delivered(upstream[1..])
  }

  function Body(upstream: seq<Poll>): Bytes {
    Data(Delivered(upstream))
  }

  // ---- Refinement ----------------------------------------------------------

  // The simple form: pass results on while their bytes fit the budget.
  function Cut(upstream: seq<Poll>, budget: nat): seq<Poll> {
    if upstream == [] || upstream[0].End? then [End]
    else if !upstream[0].Chunk? then [upstream[0]] + Cut(upstream[1..], budget)
    else if |upstream[0].data| <= budget then [upstream[0]] + Cut(upstream[1..], budget - |upstream[0].data|)
    else [Chunk(upstream[0].data[..budget]), Chunk(STREAM_TRUNCATION_MARKER), End]
  }

  lemma {:induction false} DrainIsCut(s: State)
    requires Sound(s) && !s.truncated && s.cap.Some? && s.cap.value < U64_MAX
    ensures Drain(s).0 == Cut(s.upstream, s.cap.value - s.seen)
    ensures Drain(s).1.fired == s.fired + (if |Body(s.upstream)| > s.cap.value - s.seen then [s.cap.value] else [])
    decreases |s.upstream|
  {
    var (item, next) := PollNext(s);
    if s.upstream == [] || s.upstream[0].End? {
    } else {
      var first := s.upstream[0];
      BodyFirst(s.upstream);
      if first.Chunk? && s.seen + |first.data| > s.cap.value {
        AfterTruncation(next);
      } else {
        DrainIsCut(next);
      }
    }
  }

  // A truncated stream yields the marker and ends.
  lemma AfterTruncation(s: State)
    requires Sound(s) && s.marker.Some?
    ensures Drain(s) == ([Chunk(STREAM_TRUNCATION_MARKER), End], s.(marker := None))
  {
    var quiet := s.(marker := None);
    assert Drain(quiet) == ([End], quiet);
    assert PollNext(s) == (Chunk(STREAM_TRUNCATION_MARKER), quiet);
    assert [Chunk(STREAM_TRUNCATION_MARKER)] + [End] == [Chunk(STREAM_TRUNCATION_MARKER), End];
  }

  lemma BodyFirst(upstream: seq<Poll>)
    requires upstream != [] && !upstream[0].End?
    ensures Body(upstream) == (if upstream[0].Chunk? then upstream[0].data else []) + Body(upstream[1..])
  {
    assert Delivered(upstream)[1..] == Delivered(upstream[1..]);
  }

  lemma DataFirst(items: seq<Poll>, rest: seq<Poll>)
    requires |items| == 1
    ensures Data(items + rest) == (if items[0].Chunk? then items[0].data else []) + Data(rest)
  {
    assert (items + rest)[1..] == rest;
  }

  lemma TruncatedData(prefix: Bytes)
    ensures Data([Chunk(prefix), Chunk(STREAM_TRUNCATION_MARKER), End]) == prefix + STREAM_TRUNCATION_MARKER
  {
    var marker := Chunk(STREAM_TRUNCATION_MARKER);
    DataFirst([End], []);
    assert [End] + [] == [End];
    DataFirst([marker], [End]);
    DataFirst([Chunk(prefix)], [marker] + [End]);
    assert [Chunk(prefix)] + ([marker] + [End]) == [Chunk(prefix), marker, End];
  }

  lemma NothingDelivered(upstream: seq<Poll>)
    requires upstream == [] || upstream[0].End?
    ensures Body(upstream) == [] && Data([End]) == []
  {
    DataFirst([End], []);
    assert [End] + [] == [End];
  }

  lemma PrefixJoin(a: Bytes, b: Bytes, c: Bytes, n: nat)
    requires |a| <= n <= |a| + |b|
    ensures (a + b)[..n] + c == a + (b[..n - |a|] + c)
  {
  }

  lemma {:induction false} CutBytes(upstream: seq<Poll>, budget: nat)
    ensures var body := Body(upstream);
            Data(Cut(upstream, budget)) == if |body| > budget then body[..budget] + STREAM_TRUNCATION_MARKER else body
    ensures |Body(upstream)| <= budget ==> Cut(upstream, budget) == Delivered(upstream) + [End]
  {
    hide Data, Body;
    if upstream == [] || upstream[0].End? {
      NothingDelivered(upstream);
    } else {
      var first, rest := upstream[0], upstream[1..];
      BodyFirst(upstream);
      if !first.Chunk? {
        CutBytes(rest, budget);
        DataFirst([first], Cut(rest, budget));
      } else if |first.data| <= budget {
        var left := budget - |first.data|;
        CutBytes(rest, left);
        DataFirst([first], Cut(rest, left));
        if |Body(rest)| > left {
          PrefixJoin(first.data, Body(rest), STREAM_TRUNCATION_MARKER, budget);
        }
      } else {
        var prefix := first.data[..budget];
        assert Body(upstream)[..budget] == prefix;
        TruncatedData(prefix);
      }
    }
  }

  lemma {:induction false} UncappedPassesThrough(s: State)
    requires Sound(s) && !s.truncated && (s.cap.None? || s.cap.value == U64_MAX)
    ensures Drain(s).0 == Delivered(s.upstream) + [End]
    ensures Drain(s).1.fired == s.fired
    decreases |s.upstream|
  {
    if s.upstream != [] && !s.upstream[0].End? {
      UncappedPassesThrough(PollNext(s).1);
    }
  }

  lemma {:induction false} DeliveredData(items: seq<Poll>)
    ensures Data(items + [End]) == Data(items)
  {
    if items == [] {
      assert items + [End] == [End];
      DataFirst([End], []);
      assert [End] + [] == [End];
    } else {
      DeliveredData(items[1..]);
      assert (items + [End])[1..] == items[1..] + [End];
    }
  }

  // For every cap and every chunking of a body that has a u64 length: the bytes out
  // are the body, or its first `cap` bytes and the marker, exactly when the buffered
  // check would reject the same body; only then the callback runs, once.
  lemma CappedResponse(upstream: seq<Poll>, cap: Option<U64>)
    requires |Body(upstream)| <= U64_MAX
    ensures var (items, last), body := Drain(New(upstream, cap)), Body(upstream);
            if SizeExceeded(cap, body) then
              Data(items) == body[..cap.value] + STREAM_TRUNCATION_MARKER && last.fired == [cap.value]
            else
              items == Delivered(upstream) + [End] && Data(items) == body && last.fired == []
  {
    var s := New(upstream, cap);
    if cap.None? || cap.value == U64_MAX {
      UncappedPassesThrough(s);
      DeliveredData(Delivered(upstream));
    } else {
      DrainIsCut(s);
      CutBytes(upstream, cap.value);
    }
  }

  // So chunk boundaries, pending polls and errors do not matter.
  lemma ChunkingIrrelevant(a: seq<Poll>, b: seq<Poll>, cap: Option<U64>)
    requires Body(a) == Body(b) && |Body(a)| <= U64_MAX
    ensures Data(Drain(New(a, cap)).0) == Data(Drain(New(b, cap)).0)
    ensures Drain(New(a, cap)).1.fired == Drain(New(b, cap)).1.fired
  {
    CappedResponse(a, cap);
    CappedResponse(b, cap);
  }
}
