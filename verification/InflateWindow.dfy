/** The output side of `inflate`: literals, stored bytes and match copies written to
    the caller's buffers, with older history kept only in a circular window.  A stream
    is decoded by any number of calls, each with its own output buffer; the meaning of
    the stream is plain LZ77 expansion over one unbounded output. */
module Lz77 {
  import opened Bytes

  /** What the bit decoder delivers. */
  datatype Token =
    | Literal(value: byte)
    | Match(length: nat, offset: nat)
    | Stored(data: seq<byte>)

  /** Section 3.2.3 of RFC 1951: `n` times, append the byte `offset` positions back. */
  function Extend(h: seq<byte>, offset: nat, n: nat): (r: seq<byte>)
    requires 1 <= offset <= |h|
    decreases n
  {
    if n == 0 then h else Extend(h + [h[|h| - offset]], offset, n - 1)
  }

  /** `t` is meaningful after output `h`. */
  predicate Applicable(h: seq<byte>, t: Token) {
    t.Match? ==> 1 <= t.length && 1 <= t.offset <= |h|
  }

  function Apply(h: seq<byte>, t: Token): seq<byte>
    requires Applicable(h, t)
  {
    match t
    case Literal(b) => h + [b]
    case Match(n, d) => Extend(h, d, n)
    case Stored(data) => h + data
  }

  /** Where the decoding of a token stream ends: what has been written, and what is left to write,
      first of all a match that cannot be. */
  datatype Stop = Stop(bytes: seq<byte>, rest: seq<Token>)

  /** Plain LZ77 after output `h`: every token in turn, up to the first match that reaches back
      further than `limit` or behind the beginning. */
  function Expand(h: seq<byte>, ts: seq<Token>, limit: nat): Stop
    decreases |ts|
  {
    if ts == [] || !Permitted(h, ts[0], limit) then Stop(h, ts) else Expand(Apply(h, ts[0]), ts[1..], limit)
  }

  predicate Permitted(h: seq<byte>, t: Token, limit: nat) {
    Applicable(h, t) && (t.Match? ==> t.offset <= limit)
  }

  /** What the bit decoder delivers: no empty match and no distance of zero. */
  predicate WellFormed(ts: seq<Token>) {
    forall t | t in ts && t.Match? :: 1 <= t.length && 1 <= t.offset
  }

  /** `r` is `h` followed by `n` bytes, each a copy of the byte `offset` before it. */
  ghost predicate IsMatchCopy(h: seq<byte>, r: seq<byte>, offset: nat, n: nat) {
    && 1 <= offset <= |h|
    && |r| == |h| + n
    && r[..|h|] == h
    && forall i :: |h| <= i < |r| ==> r[i] == r[i - offset]
  }

  lemma {:induction false} ExtendIsMatchCopy(h: seq<byte>, offset: nat, n: nat)
    requires 1 <= offset <= |h|
    ensures IsMatchCopy(h, Extend(h, offset, n), offset, n)
    decreases n
  {
    if n > 0 {
      var h' := h + [h[|h| - offset]];
      ExtendIsMatchCopy(h', offset, n - 1);
      var r := Extend(h', offset, n - 1);
      assert r[..|h|] == r[..|h'|][..|h|] == h;
      assert r[|h|] == r[..|h'|][|h|];
      assert r[|h| - offset] == r[..|h'|][|h| - offset];
    }
  }

  /** The copy is determined by the repetition property alone. */
  lemma {:induction false} MatchCopyIsExtend(h: seq<byte>, r: seq<byte>, offset: nat, n: nat)
    requires IsMatchCopy(h, r, offset, n)
    ensures r == Extend(h, offset, n)
    decreases n
  {
    if n == 0 {
      assert r == r[..|h|];
    } else {
      var h' := h + [h[|h| - offset]];
      assert r[|h|] == r[|h| - offset] == r[..|h|][|h| - offset];
      assert r[..|h'|] == h';
      MatchCopyIsExtend(h', r, offset, n - 1);
    }
  }

  lemma {:induction false} ExtendAdds(h: seq<byte>, offset: nat, a: nat, b: nat)
    requires 1 <= offset <= |h|
    ensures |Extend(h, offset, a)| == |h| + a
    ensures Extend(h, offset, a + b) == Extend(Extend(h, offset, a), offset, b)
    decreases a
  {
    if a > 0 {
      ExtendAdds(h + [h[|h| - offset]], offset, a - 1, b);
    }
  }

  /** Expansion only appends. */
  lemma {:induction false} ExpandExtends(h: seq<byte>, ts: seq<Token>, limit: nat)
    ensures h <= Expand(h, ts, limit).bytes
    decreases |ts|
  {
    if ts != [] && Permitted(h, ts[0], limit) {
      if ts[0].Match? {
        ExtendIsMatchCopy(h, ts[0].offset, ts[0].length);
      }
      ExpandExtends(Apply(h, ts[0]), ts[1..], limit);
    }
  }

  lemma ExpandFirst(h: seq<byte>, t: Token, ts: seq<Token>, limit: nat)
    ensures Permitted(h, t, limit) ==> Expand(h, [t] + ts, limit) == Expand(Apply(h, t), ts, limit)
    ensures !Permitted(h, t, limit) ==> Expand(h, [t] + ts, limit) == Stop(h, [t] + ts)
  {
    assert ([t] + ts)[1..] == ts;
  }

  /** A match may be written in two parts. */
  lemma ExpandMatchInParts(h: seq<byte>, dist: nat, n: nat, left: nat, ts: seq<Token>, limit: nat)
    requires 0 < left < n && 1 <= dist <= |h| && dist <= limit
    ensures Expand(Extend(h, dist, n - left), [Match(left, dist)] + ts, limit)
            == Expand(h, [Match(n, dist)] + ts, limit)
  {
    ExpandFirst(h, Match(n, dist), ts, limit);
    ExtendAdds(h, dist, n - left, left);
    ExpandFirst(Extend(h, dist, n - left), Match(left, dist), ts, limit);
  }

  /** So may a stored block. */
  lemma ExpandStoredInParts(h: seq<byte>, data: seq<byte>, n: nat, ts: seq<Token>, limit: nat)
    requires n <= |data|
    ensures Expand(h + data[..n], [Stored(data[n..])] + ts, limit) == Expand(h, [Stored(data)] + ts, limit)
  {
    ExpandFirst(h, Stored(data), ts, limit);
    ExpandFirst(h + data[..n], Stored(data[n..]), ts, limit);
    assert h + data[..n] + data[n..] == h + data;
  }
}

module InflateWindow {
  import opened Bytes
  import opened Lz77

  datatype Mode = Len | Lit | MatchCopy | StoredCopy | Bad

  function Min(a: nat, b: nat): nat { if a < b then a else b }

  function Sum(rooms: seq<nat>): nat {
    if rooms == [] then 0 else Sum(rooms[..|rooms| - 1]) + rooms[|rooms| - 1]
  }

  /** The cell of a window of size `size` holding the byte `d` positions back. */
  function Slot(size: nat, wnext: nat, d: nat): int {
    if d <= wnext then wnext - d else size + wnext - d
  }

  /** The circular window `w` stands for the last min(total, size) bytes of `all`. */
  ghost predicate Represents(w: seq<byte>, wnext: nat, whave: nat, all: seq<byte>) {
    && wnext < |w|
    && whave == Min(|all|, |w|)
    && (whave < |w| ==> wnext == whave)
    && forall d :: 1 <= d <= whave ==> w[Slot(|w|, wnext, d)] == all[|all| - d]
  }

  /** `w` with `chunk` written over it from position `to`. */
  function Put(w: seq<byte>, to: nat, chunk: seq<byte>): (r: seq<byte>)
    requires to + |chunk| <= |w|
    ensures |r| == |w|
    ensures forall j :: 0 <= j < |w| ==> r[j] == if to <= j < to + |chunk| then chunk[j - to] else w[j]
  {
    w[..to] + chunk + w[to + |chunk|..]
  }

  /** Contents, next position and fill level of a window after a chunk is recorded. */
  function Spliced(w: seq<byte>, wnext: nat, chunk: seq<byte>): (w': seq<byte>)
    requires wnext < |w|
    ensures |w'| == |w|
  {
    var n := |chunk|;
    var i := Min(|w| - wnext, n);
    if n >= |w| then Put(w, 0, chunk[n - |w|..])
    else if i < n then Put(Put(w, wnext, chunk[..i]), 0, chunk[i..])
    else Put(w, wnext, chunk)
  }

  function NextAfter(size: nat, wnext: nat, n: nat): nat
    requires wnext < size
  {
    if n >= size then 0
    else if wnext + n < size then wnext + n
    else wnext + n - size
  }

  function HaveAfter(size: nat, wnext: nat, whave: nat, n: nat): nat
    requires wnext < size
  {
    if n >= size || wnext + n > size || whave >= size then size else whave + n
  }

  lemma WrappedCell(w: seq<byte>, w': seq<byte>, wnext: nat, whave: nat, all: seq<byte>, chunk: seq<byte>, i: nat,
                    d: nat)
    requires Represents(w, wnext, whave, all)
    requires i == |w| - wnext < |chunk| < |w|
    requires w' == Put(Put(w, wnext, chunk[..i]), 0, chunk[i..])
    requires 1 <= d <= |w|
    ensures d <= |all| + |chunk| ==> w'[Slot(|w|, |chunk| - i, d)] == (all + chunk)[|all| + |chunk| - d]
  {
    if |chunk| < d <= |all| + |chunk| {
      assert Slot(|w|, |chunk| - i, d) == Slot(|w|, wnext, d - |chunk|);
    }
  }

  lemma RoomCell(w: seq<byte>, w': seq<byte>, wnext: nat, whave: nat, all: seq<byte>, chunk: seq<byte>, next: nat,
                 d: nat)
    requires Represents(w, wnext, whave, all)
    requires |chunk| < |w| && wnext + |chunk| <= |w|
    requires w' == Put(w, wnext, chunk)
    requires next == if wnext + |chunk| == |w| then 0 else wnext + |chunk|
    requires 1 <= d <= |w| && d <= |all| + |chunk|
    ensures w'[Slot(|w|, next, d)] == (all + chunk)[|all| + |chunk| - d]
  {
    if d > |chunk| {
      assert Slot(|w|, next, d) == Slot(|w|, wnext, d - |chunk|);
    }
  }

  lemma SplicedCell(w: seq<byte>, wnext: nat, whave: nat, all: seq<byte>, chunk: seq<byte>, d: nat)
    requires Represents(w, wnext, whave, all)
    requires 1 <= d <= Min(|all| + |chunk|, |w|)
    ensures Spliced(w, wnext, chunk)[Slot(|w|, NextAfter(|w|, wnext, |chunk|), d)]
         == (all + chunk)[|all| + |chunk| - d]
  {
    var n, i := |chunk|, Min(|w| - wnext, |chunk|);
    var w' := Spliced(w, wnext, chunk);
    if n >= |w| {
    } else if i < n {
      WrappedCell(w, w', wnext, whave, all, chunk, i, d);
    } else {
      RoomCell(w, w', wnext, whave, all, chunk, NextAfter(|w|, wnext, n), d);
    }
  }

  lemma SplicedCounts(size: nat, wnext: nat, whave: nat, total: nat, n: nat)
    requires wnext < size && whave == Min(total, size) && (whave < size ==> wnext == whave)
    ensures NextAfter(size, wnext, n) < size
    ensures HaveAfter(size, wnext, whave, n) == Min(total + n, size)
    ensures HaveAfter(size, wnext, whave, n) < size ==> NextAfter(size, wnext, n) == HaveAfter(size, wnext, whave, n)
  {
  }

  /** Recording a chunk of any length keeps the window equal to the end of the history. */
  lemma SplicedRepresents(w: seq<byte>, wnext: nat, whave: nat, all: seq<byte>, chunk: seq<byte>)
    requires Represents(w, wnext, whave, all)
    ensures Represents(Spliced(w, wnext, chunk), NextAfter(|w|, wnext, |chunk|),
                       HaveAfter(|w|, wnext, whave, |chunk|), all + chunk)
  {
    hide NextAfter, HaveAfter, Spliced;
    var next, all' := NextAfter(|w|, wnext, |chunk|), all + chunk;
    SplicedCounts(|w|, wnext, whave, |all|, |chunk|);
    forall d | 1 <= d <= Min(|all'|, |w|)
      ensures Spliced(w, wnext, chunk)[Slot(|w|, next, d)] == all'[|all'| - d]
    {
      SplicedCell(w, wnext, whave, all, chunk, d);
    }
  }

  /** Bytes taken from the part of the history this call wrote itself. */
  lemma CopyFromOutput(all: seq<byte>, cur: seq<byte>, cur': seq<byte>, dist: nat, n: nat)
    requires 1 <= dist <= |cur| && |cur'| == |cur| + n && cur <= cur'
    requires forall j :: |cur| <= j < |cur'| ==> cur'[j] == cur'[j - dist]
    ensures all + cur' == Extend(all + cur, dist, n)
  {
    assert (all + cur')[..|all + cur|] == all + cur;
    MatchCopyIsExtend(all + cur, all + cur', dist, n);
  }

  /** Bytes taken from a stretch of the window that does not cross its end. */
  lemma CopyFromWindow(w: seq<byte>, wnext: nat, whave: nat, all: seq<byte>, cur: seq<byte>,
                       dist: nat, from: nat, to: nat)
    requires Represents(w, wnext, whave, all)
    requires |cur| < dist && to - from <= dist - |cur| <= whave
    requires from == Slot(|w|, wnext, dist - |cur|) && from <= to <= |w|
    ensures all + (cur + w[from..to]) == Extend(all + cur, dist, to - from)
  {
    var h, r := all + cur, all + (cur + w[from..to]);
    assert r[..|h|] == h;
    forall i | |h| <= i < |r|
      ensures r[i] == r[i - dist]
    {
      var d := dist - |cur| - (i - |h|);
      assert w[Slot(|w|, wnext, d)] == all[|all| - d];
    }
    MatchCopyIsExtend(h, r, dist, to - from);
  }

  /** The history kept between calls: the fields `window`, `wsize`, `whave` and `wnext`. */
  class Window {
    const size: nat                  // 1 << wbits
    var cells: array?<byte>
    var wsize: nat
    var whave: nat
    var wnext: nat
    ghost var recorded: seq<byte>    // every byte handed to Update since the start

    ghost predicate Valid()
      reads this, cells
    {
      && 0 < size
      && (cells == null ==> wsize == 0)
      && (cells != null ==> cells.Length == size)
      && (wsize == 0 ==> wnext == 0 && whave == 0)
      && (wsize != 0 ==> wsize == size && Represents(cells[..], wnext, whave, recorded))
    }

    /** Allocated before a reset: such a window is never filled again. */
    ghost predicate Stale()
      reads this
    {
      cells != null && wsize == 0
    }

    constructor (size: nat)
      requires 0 < size
      ensures Valid() && cells == null && recorded == [] && this.size == size
    {
      this.size := size;
      cells, wsize, whave, wnext, recorded := null, 0, 0, 0, [];
    }

    /** `inflateReset`: the counters are cleared but an allocated window is kept, so the
        window is stale from then on exactly when it had been allocated. */
    method Reset()
      requires Valid()
      modifies this`wsize, this`whave, this`wnext, this`recorded
      ensures Valid() && recorded == [] && whave == 0
      ensures Stale() <==> cells != null
    {
      wsize, whave, wnext, recorded := 0, 0, 0, [];
    }

    /** `arraySet`. */
    static method ArraySet(dest: array<byte>, src: seq<byte>, to: nat)
      requires to + |src| <= dest.Length
      modifies dest
      ensures dest[..] == Put(old(dest[..]), to, src)
    {
      var k := 0;
      while k < |src|
        invariant 0 <= k <= |src|
        invariant forall j :: 0 <= j < dest.Length ==>
                    dest[j] == if to <= j < to + k then src[j - to] else old(dest[j])
      {
        dest[to + k] := src[k];
        k := k + 1;
      }
    }

    /** Write `chunk` into a window of full size, splitting where the window wraps. */
    static method Store(w: array<byte>, wnext: nat, whave: nat, chunk: seq<byte>) returns (next: nat, have: nat)
      requires wnext < w.Length && whave <= w.Length
      modifies w
      ensures w[..] == Spliced(old(w[..]), wnext, chunk)
      ensures next == NextAfter(w.Length, wnext, |chunk|)
      ensures have == HaveAfter(w.Length, wnext, whave, |chunk|)
    {
      var n := |chunk|;
      if n >= w.Length {
        ArraySet(w, chunk[n - w.Length..], 0);
        return 0, w.Length;
      }
      var i := Min(w.Length - wnext, n);
      ArraySet(w, chunk[..i], wnext);
      if n - i != 0 {
        ArraySet(w, chunk[i..], 0);
        return n - i, w.Length;
      }
      assert chunk[..i] == chunk;
      next := wnext + i;
      if next == w.Length {
        next := 0;
      }
      have := if whave < w.Length then whave + i else whave;
    }

    /** Record `chunk`.  Whatever the sizes, the window then stands for exactly the last
        min(total, wsize) bytes, unless it is stale: then nothing is ever kept. */
    method Update(chunk: seq<byte>)
      requires Valid()
      requires cells == null ==> recorded == []
      modifies this, cells
      ensures Valid() && cells != null
      ensures recorded == old(recorded) + chunk
      ensures old(cells) != null ==> cells == old(cells)
      ensures old(cells) == null ==> fresh(cells)
      ensures Stale() <==> old(Stale())
    {
      if cells == null {
        wsize, wnext, whave := size, 0, 0;
        cells := new byte[wsize];
      }
      if wsize == 0 {
        // |chunk| >= wsize: an empty copy, and the counters stay at zero
        wnext, whave := 0, wsize;
      } else {
        SplicedRepresents(cells[..], wnext, whave, recorded, chunk);
        wnext, whave := Store(cells, wnext, whave, chunk);
      }
      recorded := recorded + chunk;
    }

    /** The byte `d` back, and the `n` bytes from there on, are the cells from `from`. */
    ghost predicate Holds(from: nat, n: nat, d: int)
      reads this
    {
      && wsize != 0
      && 1 <= d <= whave && n <= d
      && from == Slot(wsize, wnext, d)
      && from + n <= wsize
    }
  }

  /** The copying states of one `inflate` call. */
  class Output {
    const win: Window
    var out: seq<byte>               // what this call has written to its buffer
    var availOut: nat

    ghost predicate Valid()
      reads this, win, win.cells
    {
      win.Valid()
    }

    ghost function History(): seq<byte>
      reads this, win
    {
      win.recorded + out
    }

    /** The size of the caller's buffer. */
    ghost function Room(): nat
      reads this
    {
      |out| + availOut
    }

    constructor (win: Window)
      requires win.Valid()
      ensures Valid() && this.win == win && out == [] && availOut == 0
    {
      this.win := win;
      out, availOut := [], 0;
    }

    /** Literal and stored bytes go straight to the output. */
    method Append(data: seq<byte>)
      requires |data| <= availOut
      modifies this
      ensures History() == old(History()) + data && availOut == old(availOut) - |data| && Room() == old(Room())
    {
      assert win.recorded + (out + data) == win.recorded + out + data;
      out, availOut := out + data, availOut - |data|;
    }

    /** `do out[o++] = src[v++]; while (--n)`, or three bytes a turn as `inflate_fast`
        writes it. */
    static method AppendRun(src: array<byte>, from: nat, n: nat, out: seq<byte>) returns (r: seq<byte>)
      requires from + n <= src.Length
      ensures r == out + src[from..from + n]
    {
      r := out;
      var k := 0;
      while k < n
        invariant 0 <= k <= n
        invariant r == out + src[from..from + k]
      {
        r := r + [src[from + k]];
        k := k + 1;
      }
    }

    static method AppendTriples(src: array<byte>, from: nat, n: nat, out: seq<byte>) returns (r: seq<byte>)
      requires from + n <= src.Length
      ensures r == out + src[from..from + n]
    {
      r := out;
      var k := 0;
      while n - k > 2
        invariant 0 <= k <= n
        invariant r == out + src[from..from + k]
      {
        r := r + [src[from + k]];
        r := r + [src[from + k + 1]];
        r := r + [src[from + k + 2]];
        k := k + 3;
      }
      if n - k != 0 {
        r := r + [src[from + k]];
        if n - k > 1 {
          r := r + [src[from + k + 1]];
        }
      }
    }

    /** Copy a stretch of the window that starts `dist` back in the history and does not
        cross the window's end. */
    method CopyWindowRun(from: nat, n: nat, ghost dist: nat, unrolled: bool)
      requires Valid() && n <= availOut && win.Holds(from, n, dist - |out|)
      modifies this
      ensures |out| == |old(out)| + n && availOut == old(availOut) - n
      ensures dist <= |old(History())| && History() == Extend(old(History()), dist, n)
    {
      CopyFromWindow(win.cells[..], win.wnext, win.whave, win.recorded, out, dist, from, from + n);
      if unrolled {
        out := AppendTriples(win.cells, from, n, out);
      } else {
        out := AppendRun(win.cells, from, n, out);
      }
      availOut := availOut - n;
    }

    /** The same loop with the output buffer itself as source, `dist` behind. */
    method CopyOutputRun(dist: nat, n: nat)
      requires 1 <= dist <= |out| && n <= availOut
      modifies this
      ensures |out| == |old(out)| + n && availOut == old(availOut) - n
      ensures History() == Extend(old(History()), dist, n)
    {
      var k := 0;
      while k < n
        invariant 0 <= k <= n
        invariant |out| == |old(out)| + k && old(out) <= out && availOut == old(availOut) - k
        invariant forall j :: |old(out)| <= j < |out| ==> out[j] == out[j - dist]
      {
        out, availOut := out + [out[|out| - dist]], availOut - 1;
        k := k + 1;
      }
      CopyFromOutput(win.recorded, old(out), out, dist, n);
    }

    /** One pass through the MATCH state of `inflate`: up to `length` bytes. */
    method MatchStep(length: nat, offset: nat) returns (ok: bool, left: nat)
      requires Valid() && 1 <= length && 1 <= offset && 0 < availOut
      modifies this
      // refused exactly when the distance reaches behind what is kept
      ensures ok <==> offset <= |old(out)| + win.whave
      ensures Room() == old(Room())
      ensures !ok ==> out == old(out) && availOut == old(availOut)
      ensures ok ==>
                && availOut < old(availOut)
                && length == left + (old(availOut) - availOut)
                && offset <= |old(History())|
                && History() == Extend(old(History()), offset, length - left)
    {
      var h := |out|;
      if offset > h {
        h := offset - h;
        if h > win.whave {
          return false, length;
        }
        var v;
        if h > win.wnext {
          h := h - win.wnext;
          v := win.wsize - h;
        } else {
          v := win.wnext - h;
        }
        h := Min(Min(h, length), availOut);
        CopyWindowRun(v, h, offset, false);
      } else {
        h := Min(length, availOut);
        CopyOutputRun(offset, h);
      }
      return true, length - h;
    }

    /** That loop unrolled as in `inflate_fast`. */
    method CopyOutputTriples(dist: nat, n: nat)
      requires n <= availOut && 1 <= dist <= |out|
      modifies this
      ensures availOut == old(availOut) - n && Room() == old(Room())
      ensures History() == Extend(old(History()), dist, n)
    {
      ghost var h := History();
      var r := n;
      while r > 2
        invariant 0 <= r <= n && availOut == old(availOut) - (n - r)
        invariant |out| >= |old(out)| && Room() == old(Room())
        invariant History() == Extend(h, dist, n - r)
      {
        ExtendAdds(h, dist, n - r, 3);
        CopyOutputRun(dist, 3);
        r := r - 3;
      }
      if r != 0 {
        ExtendAdds(h, dist, n - r, r);
        CopyOutputRun(dist, r);
      }
    }

    /** The older bytes of the match are the `b` bytes at `from`; copy them, or as many
        as the match needs, and the rest from the output. */
    method WindowThenOutput(from: nat, b: nat, r: nat, dist: nat)
      requires Valid() && r <= availOut
      requires b == dist - |out| && win.Holds(from, b, b)
      modifies this
      ensures dist <= |old(History())| && History() == Extend(old(History()), dist, r)
      ensures availOut == old(availOut) - r && Room() == old(Room())
    {
      if b < r {
        ExtendAdds(History(), dist, b, r - b);
        CopyWindowRun(from, b, dist, false);
        CopyOutputTriples(dist, r - b);
      } else {
        CopyWindowRun(from, r, dist, true);
      }
    }

    /** A whole match inside `inflate_fast`: the distance may reach into the window, and
        there the bytes may run past its end to its beginning. */
    method FastMatch(len: nat, dist: nat) returns (ok: bool)
      requires Valid() && 1 <= len <= availOut && 1 <= dist
      modifies this
      ensures ok <==> dist <= |old(out)| + win.whave
      ensures Room() == old(Room())
      ensures !ok ==> out == old(out) && availOut == old(availOut)
      ensures ok ==>
                && availOut == old(availOut) - len
                && dist <= |old(History())| && History() == Extend(old(History()), dist, len)
    {
      if dist <= |out| {
        CopyOutputTriples(dist, len);
        return true;
      }
      var b := dist - |out|;
      if b > win.whave {
        return false;
      }
      if win.wnext == 0 {
        WindowThenOutput(win.wsize - b, b, len, dist);
      } else if win.wnext < b {
        var tail := b - win.wnext;
        if tail < len {
          ExtendAdds(History(), dist, tail, len - tail);
          CopyWindowRun(win.wsize - tail, tail, dist, false);
          WindowThenOutput(0, win.wnext, len - tail, dist);
        } else {
          CopyWindowRun(win.wsize - tail, len, dist, true);
        }
      } else {
        WindowThenOutput(win.wnext - b, b, len, dist);
      }
      return true;
    }
  }

  /** How much of `total` bytes a window keeps. */
  function Kept(stale: bool, size: nat, total: nat): nat { if stale then 0 else Min(total, size) }

  /** The match reaches back behind the header's limit, or behind the bytes written by this call and
      those kept from before. */
  predicate Beyond(t: Token, dmax: nat, written: nat, kept: nat) {
    t.Match? && (t.offset > dmax || t.offset > written + kept)
  }

  // What a call does, told from its input alone

  /** How many bytes a token writes. */
  function Width(t: Token): nat {
    match t
    case Literal(_) => 1
    case Match(n, _) => n
    case Stored(data) => |data|
  }

  /** What is left of a token when `n` of its bytes are written. */
  function Trimmed(t: Token, n: nat): Token
    requires n < Width(t)
  {
    match t
    case Literal(_) => t
    case Match(len, dist) => Match(len - n, dist)
    case Stored(data) => Stored(data[n..])
  }

  /** A call that has written `done` bytes cannot go on with this token: a distance behind the header's
      limit is noticed when it is read, one behind what is kept when there is room to copy. */
  predicate Blocked(t: Token, done: nat, avail: nat, dmax: nat, kept: nat) {
    t.Match? && (t.offset > dmax || (done < avail && t.offset > done + kept))
  }

  /** How a call ends: refused or not, with so many bytes written and these tokens left. */
  datatype Outcome = Outcome(refused: bool, written: nat, rest: seq<Token>)

  function Run(ts: seq<Token>, done: nat, avail: nat, dmax: nat, kept: nat): Outcome
    requires done <= avail
    decreases |ts|
  {
    if ts == [] then Outcome(false, done, [])
    else if Blocked(ts[0], done, avail, dmax, kept) then Outcome(true, done, ts)
    else if done + Width(ts[0]) <= avail then Run(ts[1..], done + Width(ts[0]), avail, dmax, kept)
    else Outcome(false, avail, [Trimmed(ts[0], avail - done)] + ts[1..])
  }

  lemma RunFirst(t: Token, ts: seq<Token>, done: nat, avail: nat, dmax: nat, kept: nat)
    requires done <= avail
    ensures Run([t] + ts, done, avail, dmax, kept)
         == if Blocked(t, done, avail, dmax, kept) then Outcome(true, done, [t] + ts)
            else if done + Width(t) <= avail then Run(ts, done + Width(t), avail, dmax, kept)
            else Outcome(false, avail, [Trimmed(t, avail - done)] + ts)
  {
    assert ([t] + ts)[1..] == ts;
  }

  lemma RunNothing(done: nat, avail: nat, dmax: nat, kept: nat)
    requires done <= avail
    ensures Run([], done, avail, dmax, kept) == Outcome(false, done, [])
  {
  }

  /** Inside one call a match may be copied in parts: once within reach, it stays so. */
  lemma RunMatchInParts(n: nat, dist: nat, left: nat, ts: seq<Token>, done: nat, avail: nat, dmax: nat, kept: nat)
    requires 0 < left < n && done + (n - left) <= avail && !Blocked(Match(n, dist), done, avail, dmax, kept)
    requires done < avail
    ensures Run([Match(left, dist)] + ts, done + (n - left), avail, dmax, kept)
         == Run([Match(n, dist)] + ts, done, avail, dmax, kept)
  {
    hide Run;
    RunFirst(Match(n, dist), ts, done, avail, dmax, kept);
    RunFirst(Match(left, dist), ts, done + (n - left), avail, dmax, kept);
  }

  lemma RunStoredInParts(data: seq<byte>, n: nat, ts: seq<Token>, done: nat, avail: nat, dmax: nat, kept: nat)
    requires n <= |data| && done + n <= avail
    ensures Run([Stored(data[n..])] + ts, done + n, avail, dmax, kept)
         == Run([Stored(data)] + ts, done, avail, dmax, kept)
  {
    hide Run;
    RunFirst(Stored(data), ts, done, avail, dmax, kept);
    RunFirst(Stored(data[n..]), ts, done + n, avail, dmax, kept);
    if avail < done + |data| {
      assert data[n..][avail - (done + n)..] == data[avail - done..];
    }
  }

  // Where a stream ends, told from the tokens and the sizes of the buffers

  function Max(a: nat, b: nat): nat { if a < b then b else a }

  /** The tokens left when `n` bytes are written. */
  function Rest(ts: seq<Token>, n: nat): seq<Token> {
    if ts == [] then []
    else if Width(ts[0]) <= n then Rest(ts[1..], n - Width(ts[0]))
    else [Trimmed(ts[0], n)] + ts[1..]
  }

  /** How many bytes come before token `k`. */
  function Place(ts: seq<Token>, k: nat): nat
    requires k <= |ts|
  {
    if k == 0 then 0 else Width(ts[0]) + Place(ts[1..], k - 1)
  }

  /** With the first token at `p`, a call for the bytes from `start` to `end` comes to token `k`, or to
      what is left of it, and cannot go on. */
  predicate MetIn(ts: seq<Token>, k: nat, p: nat, start: nat, end: nat, dmax: nat, kept: nat)
    requires start <= end
  {
    && k < |ts| && ts[k].Match?
    && var q := p + Place(ts, k);
       && q <= end && start < q + ts[k].length
       && Blocked(ts[k], Max(q, start) - start, end - start, dmax, kept)
  }

  predicate MetAt(ts: seq<Token>, k: nat, p: nat, start: nat, end: nat, dmax: nat, kept: nat, n: nat)
    requires start <= end
  {
    MetIn(ts, k, p, start, end, dmax, kept) && n == Max(p + Place(ts, k), start)
  }

  /** The first such token is met at `n`. */
  ghost predicate FirstMet(ts: seq<Token>, p: nat, start: nat, end: nat, dmax: nat, kept: nat, n: nat)
    requires start <= end
  {
    && (exists k: nat :: MetAt(ts, k, p, start, end, dmax, kept, n))
    && forall k: nat | MetIn(ts, k, p, start, end, dmax, kept) :: n <= Max(p + Place(ts, k), start)
  }

  /** What a call does to tokens of which the first begins at `p`: it stops at the first match it cannot
      copy, or at its end, or with nothing left. */
  ghost predicate Foretold(end: Outcome, ts: seq<Token>, p: nat, start: nat, stop: nat, dmax: nat, kept: nat) {
    && start <= stop && p <= start + end.written <= stop && end.rest == Rest(ts, start + end.written - p)
    && if end.refused
       then FirstMet(ts, p, start, stop, dmax, kept, start + end.written)
       else && start + end.written == Min(Max(p + Place(ts, |ts|), start), stop)
            && forall k: nat :: !MetIn(ts, k, p, start, stop, dmax, kept)
  }

  lemma MetLater(ts: seq<Token>, k: nat, p: nat, start: nat, end: nat, dmax: nat, kept: nat)
    requires start <= end && ts != []
    ensures MetIn(ts[1..], k, p + Width(ts[0]), start, end, dmax, kept) <==> MetIn(ts, k + 1, p, start, end, dmax, kept)
    ensures k + 1 <= |ts| ==> p + Width(ts[0]) + Place(ts[1..], k) == p + Place(ts, k + 1)
  {
    hide Blocked;
  }

  lemma MetInside(ts: seq<Token>, k: nat, p: nat, start: nat, end: nat, dmax: nat, kept: nat)
    requires start <= end && MetIn(ts, k, p, start, end, dmax, kept)
    ensures k < |ts|
  {
  }

  /** A first token that is passed over leaves the rest to tell. */
  lemma ForetoldLater(end: Outcome, ts: seq<Token>, p: nat, start: nat, stop: nat, dmax: nat, kept: nat)
    requires ts != [] && start <= stop && Foretold(end, ts[1..], p + Width(ts[0]), start, stop, dmax, kept)
    requires !MetIn(ts, 0, p, start, stop, dmax, kept)
    ensures Foretold(end, ts, p, start, stop, dmax, kept)
  {
    hide MetIn, MetAt, Blocked, Rest, Trimmed;
    var later, q, n := ts[1..], p + Width(ts[0]), start + end.written;
    RestLater(ts, n - p);
    forall k: nat | MetIn(ts, k, p, start, stop, dmax, kept)
      ensures k > 0 && MetIn(later, k - 1, q, start, stop, dmax, kept) && k <= |ts|
              && q + Place(later, k - 1) == p + Place(ts, k)
    {
      MetInside(ts, k, p, start, stop, dmax, kept);
      MetLater(ts, k - 1, p, start, stop, dmax, kept);
    }
    MetLater(ts, |later|, p, start, stop, dmax, kept);
    if end.refused {
      var k: nat :| MetAt(later, k, q, start, stop, dmax, kept, n);
      MetAtLater(ts, k, p, start, stop, dmax, kept, n);
    }
  }

  lemma MetAtLater(ts: seq<Token>, k: nat, p: nat, start: nat, end: nat, dmax: nat, kept: nat, n: nat)
    requires start <= end && ts != [] && MetAt(ts[1..], k, p + Width(ts[0]), start, end, dmax, kept, n)
    ensures MetAt(ts, k + 1, p, start, end, dmax, kept, n)
  {
    MetLater(ts, k, p, start, end, dmax, kept);
  }

  lemma RestLater(ts: seq<Token>, n: nat)
    requires ts != [] && Width(ts[0]) <= n
    ensures Rest(ts, n) == Rest(ts[1..], n - Width(ts[0]))
  {
  }

  lemma BlockedIsMet(ts: seq<Token>, p: nat, start: nat, stop: nat, dmax: nat, kept: nat, n: nat)
    requires start <= stop && ts != [] && p <= stop && start < p + Width(ts[0]) && n == Max(p, start)
    requires Blocked(ts[0], n - start, stop - start, dmax, kept)
    ensures MetAt(ts, 0, p, start, stop, dmax, kept, n)
  {
  }

  /** The first token is out of reach. */
  lemma ForetoldBlocked(end: Outcome, ts: seq<Token>, p: nat, start: nat, stop: nat, dmax: nat, kept: nat)
    requires start <= stop && ts != [] && p <= stop && start < p + Width(ts[0])
    requires Blocked(ts[0], Max(p, start) - start, stop - start, dmax, kept)
    requires end == Outcome(true, Max(p, start) - start, Rest(ts, Max(p, start) - p))
    ensures Foretold(end, ts, p, start, stop, dmax, kept)
  {
    hide MetAt, Rest, Blocked;
    BlockedIsMet(ts, p, start, stop, dmax, kept, start + end.written);
  }

  lemma NoneWritten(ts: seq<Token>)
    requires ts != [] && ts[0].Match? && 1 <= ts[0].length
    ensures Rest(ts, 0) == ts
  {
  }

  /** The call ends inside the first token. */
  lemma ForetoldFull(ts: seq<Token>, p: nat, start: nat, stop: nat, dmax: nat, kept: nat)
    requires start <= stop && ts != [] && p <= stop < p + Width(ts[0])
    requires !Blocked(ts[0], Max(p, start) - start, stop - start, dmax, kept)
    ensures Foretold(Outcome(false, stop - start, Rest(ts, stop - p)), ts, p, start, stop, dmax, kept)
  {
  }

  lemma {:induction false} RunForetold(ts: seq<Token>, p: nat, start: nat, stop: nat, dmax: nat, kept: nat)
    requires start <= p <= stop && WellFormed(ts)
    ensures Foretold(Run(ts, p - start, stop - start, dmax, kept), ts, p, start, stop, dmax, kept)
    decreases |ts|
  {
    if ts == [] {
      RunNothing(p - start, stop - start, dmax, kept);
    } else {
      hide Foretold, MetIn;
      assert ts[0] in ts;
      if Blocked(ts[0], p - start, stop - start, dmax, kept) {
        NoneWritten(ts);
        ForetoldBlocked(Run(ts, p - start, stop - start, dmax, kept), ts, p, start, stop, dmax, kept);
      } else if p + Width(ts[0]) <= stop {
        RunForetold(ts[1..], p + Width(ts[0]), start, stop, dmax, kept);
        NotMet(ts, p, start, stop, dmax, kept);
        ForetoldLater(Run(ts, p - start, stop - start, dmax, kept), ts, p, start, stop, dmax, kept);
      } else {
        ForetoldFull(ts, p, start, stop, dmax, kept);
      }
    }
  }

  lemma NotMet(ts: seq<Token>, p: nat, start: nat, stop: nat, dmax: nat, kept: nat)
    requires ts != [] && start <= stop
    requires p + Width(ts[0]) <= start || !Blocked(ts[0], Max(p, start) - start, stop - start, dmax, kept)
    ensures !MetIn(ts, 0, p, start, stop, dmax, kept)
  {
  }

  /** A call that begins inside the first token. */
  lemma CallInside(ts: seq<Token>, p: nat, start: nat, stop: nat, dmax: nat, kept: nat)
    requires p <= start <= stop && WellFormed(ts) && ts != [] && start < p + Width(ts[0])
    ensures Foretold(Run(Rest(ts, start - p), 0, stop - start, dmax, kept), ts, p, start, stop, dmax, kept)
  {
    hide Run, Foretold, MetIn;
    var t, avail := Trimmed(ts[0], start - p), stop - start;
    RunFirst(t, ts[1..], 0, avail, dmax, kept);
    if Blocked(t, 0, avail, dmax, kept) {
      ForetoldBlocked(Outcome(true, 0, Rest(ts, start - p)), ts, p, start, stop, dmax, kept);
    } else if Width(t) <= avail {
      RunForetold(ts[1..], p + Width(ts[0]), start, stop, dmax, kept);
      NotMet(ts, p, start, stop, dmax, kept);
      ForetoldLater(Run(ts[1..], Width(t), avail, dmax, kept), ts, p, start, stop, dmax, kept);
    } else {
      TrimmedTwice(ts[0], start - p, avail);
      ForetoldFull(ts, p, start, stop, dmax, kept);
    }
  }

  /** A call for the bytes from `start` on, given what is left there. */
  lemma {:induction false} CallForetold(ts: seq<Token>, p: nat, start: nat, stop: nat, dmax: nat, kept: nat)
    requires p <= start <= stop && WellFormed(ts)
    ensures Foretold(Run(Rest(ts, start - p), 0, stop - start, dmax, kept), ts, p, start, stop, dmax, kept)
    decreases |ts|
  {
    if ts == [] {
      RunNothing(0, stop - start, dmax, kept);
    } else if p + Width(ts[0]) <= start {
      hide Run, Foretold, MetIn;
      RestLater(ts, start - p);
      NotMet(ts, p, start, stop, dmax, kept);
      CallForetold(ts[1..], p + Width(ts[0]), start, stop, dmax, kept);
      ForetoldLater(Run(Rest(ts, start - p), 0, stop - start, dmax, kept), ts, p, start, stop, dmax, kept);
    } else {
      CallInside(ts, p, start, stop, dmax, kept);
    }
  }

  lemma TrimmedTwice(t: Token, a: nat, b: nat)
    requires a + b < Width(t)
    ensures Trimmed(Trimmed(t, a), b) == Trimmed(t, a + b)
  {
    if t.Stored? {
      assert t.data[a..][b..] == t.data[a + b..];
    }
  }

  // Any number of calls

  /** What a stream depends on beside its tokens and buffers: the header's limit, the window's size,
      whether the window was there before the reset, and the length of the dictionary. */
  datatype Limits = Limits(dmax: nat, size: nat, stale: bool, before: nat)

  /** Where call `i` begins if every call before it fills its buffer. */
  function Begin(rooms: seq<nat>, i: nat): nat
    requires i <= |rooms|
  {
    Sum(rooms[..i])
  }

  lemma BeginNext(rooms: seq<nat>, i: nat)
    requires i < |rooms|
    ensures Begin(rooms, i + 1) == Begin(rooms, i) + rooms[i]
  {
    assert rooms[..i + 1][..i] == rooms[..i];
  }

  lemma BeginFirst(rooms: seq<nat>)
    ensures Begin(rooms, 0) == 0 && Begin(rooms, |rooms|) == Sum(rooms)
  {
    assert rooms[..0] == [] && rooms[..|rooms|] == rooms;
  }

  lemma {:induction false} BeginRises(rooms: seq<nat>, i: nat, j: nat)
    requires i <= j <= |rooms|
    ensures Begin(rooms, i) <= Begin(rooms, j)
    decreases j - i
  {
    if i < j {
      BeginNext(rooms, j - 1);
      BeginRises(rooms, i, j - 1);
    }
  }

  /** Call `i` refuses token `k`: it is a match that reaches behind the header's limit, or behind what
      the call has written and what is kept of the bytes before it. */
  ghost predicate RefusedAt(ts: seq<Token>, rooms: seq<nat>, m: Limits, k: nat, i: nat) {
    && i < |rooms|
    && var start := Begin(rooms, i);
       MetIn(ts, k, 0, start, start + rooms[i], m.dmax, Kept(m.stale, m.size, m.before + start))
  }

  function StopAt(ts: seq<Token>, rooms: seq<nat>, k: nat, i: nat): nat
    requires k <= |ts| && i <= |rooms|
  {
    Max(Place(ts, k), Begin(rooms, i))
  }

  /** `n` bytes come before the first refusal. */
  ghost predicate FirstRefusal(ts: seq<Token>, rooms: seq<nat>, m: Limits, n: nat) {
    && (exists k: nat, i: nat :: RefusedAt(ts, rooms, m, k, i) && n == StopAt(ts, rooms, k, i))
    && forall k: nat, i: nat | RefusedAt(ts, rooms, m, k, i) :: n <= StopAt(ts, rooms, k, i)
  }

  /** After `c` calls: refused or not, with `n` bytes written and `rest` left. */
  ghost predicate Told(ts: seq<Token>, rooms: seq<nat>, m: Limits, c: nat, refused: bool, n: nat, rest: seq<Token>) {
    && c <= |rooms| && n <= Begin(rooms, c) && rest == (if c == 0 then ts else Rest(ts, n))
    && if refused then 0 < c && FirstRefusal(ts, rooms, m, n)
       else && n == Min(Place(ts, |ts|), Begin(rooms, c))
            && forall k: nat, i: nat | i < c :: !RefusedAt(ts, rooms, m, k, i)
  }

  lemma ToldNext(ts: seq<Token>, rooms: seq<nat>, m: Limits, c: nat, n: nat, rest: seq<Token>)
    requires c < |rooms| && WellFormed(ts) && Told(ts, rooms, m, c, false, n, rest)
    ensures var end := Run(rest, 0, rooms[c], m.dmax, Kept(m.stale, m.size, m.before + n));
            Told(ts, rooms, m, c + 1, end.refused, n + end.written, end.rest)
  {
    hide Run, MetIn, MetAt, Kept, Rest, Begin, Place;
    var start := Begin(rooms, c);
    BeginNext(rooms, c);
    var kept := Kept(m.stale, m.size, m.before + start);
    if c == 0 {
      BeginFirst(rooms);
      RunForetold(ts, 0, 0, rooms[c], m.dmax, kept);
    } else {
      CallForetold(ts, 0, start, start + rooms[c], m.dmax, kept);
    }
    if n < start {
      AllWritten(ts, n);
      AllWritten(ts, start);
      RunNothing(0, rooms[c], m.dmax, Kept(m.stale, m.size, m.before + n));
      RunNothing(0, rooms[c], m.dmax, kept);
    }
    var end := Run(rest, 0, rooms[c], m.dmax, kept);
    if end.refused {
      var k: nat :| MetAt(ts, k, 0, start, start + rooms[c], m.dmax, kept, start + end.written);
      RefusedFirst(ts, rooms, m, c, k, start + end.written);
    }
  }

  lemma RefusedFirst(ts: seq<Token>, rooms: seq<nat>, m: Limits, c: nat, k: nat, n: nat)
    requires c < |rooms| && n <= Begin(rooms, c) + rooms[c]
    requires var start := Begin(rooms, c); var kept := Kept(m.stale, m.size, m.before + start);
             && MetAt(ts, k, 0, start, start + rooms[c], m.dmax, kept, n)
             && forall j: nat | MetIn(ts, j, 0, start, start + rooms[c], m.dmax, kept) ::
                  n <= Max(0 + Place(ts, j), start)
    requires forall j: nat, i: nat | i < c :: !RefusedAt(ts, rooms, m, j, i)
    ensures FirstRefusal(ts, rooms, m, n)
  {
    hide MetIn, Kept, Begin;
    assert RefusedAt(ts, rooms, m, k, c);
    forall j: nat, i: nat | RefusedAt(ts, rooms, m, j, i) ensures j <= |ts| && n <= StopAt(ts, rooms, j, i) {
      MetInside(ts, j, 0, Begin(rooms, i), Begin(rooms, i) + rooms[i], m.dmax,
                Kept(m.stale, m.size, m.before + Begin(rooms, i)));
      if c < i {
        BeginNext(rooms, c);
        BeginRises(rooms, c + 1, i);
      }
    }
  }

  lemma {:induction false} AllWritten(ts: seq<Token>, n: nat)
    requires Place(ts, |ts|) <= n
    ensures Rest(ts, n) == []
    decreases |ts|
  {
    if ts != [] {
      AllWritten(ts[1..], n - Width(ts[0]));
    }
  }

  /** Every call fills its buffer as long as there is anything to write. */
  ghost predicate Shared(chunks: seq<seq<byte>>, rooms: seq<nat>, n: nat) {
    && |chunks| <= |rooms|
    && forall j | 0 <= j < |chunks| :: |chunks[j]| == Min(Begin(rooms, j + 1), n) - Min(Begin(rooms, j), n)
  }

  lemma SharedNext(chunks: seq<seq<byte>>, rooms: seq<nat>, n: nat, written: seq<byte>)
    requires |chunks| < |rooms| && Shared(chunks, rooms, n) && n <= Begin(rooms, |chunks|)
    requires |written| <= rooms[|chunks|] && (written == [] || n == Begin(rooms, |chunks|))
    ensures Shared(chunks + [written], rooms, n + |written|)
  {
    hide Begin;
    var c := |chunks|;
    BeginNext(rooms, c);
    forall j | 0 <= j < c
      ensures |chunks[j]| == Min(Begin(rooms, j + 1), n + |written|) - Min(Begin(rooms, j), n + |written|)
    {
      BeginRises(rooms, j, c);
      BeginRises(rooms, j + 1, c);
    }
  }

  lemma ToldBound(ts: seq<Token>, rooms: seq<nat>, m: Limits, c: nat, refused: bool, n: nat, rest: seq<Token>)
    requires Told(ts, rooms, m, c, refused, n, rest)
    ensures n <= Begin(rooms, c) && (!refused && rest != [] ==> n == Begin(rooms, c))
  {
    if !refused && n < Begin(rooms, c) {
      AllWritten(ts, n);
      if c == 0 {
        BeginFirst(rooms);
      }
    }
  }

  lemma ToldStays(ts: seq<Token>, rooms: seq<nat>, m: Limits, c: nat, n: nat, rest: seq<Token>)
    requires c < |rooms| && Told(ts, rooms, m, c, true, n, rest)
    ensures Told(ts, rooms, m, c + 1, true, n, rest)
  {
    BeginNext(rooms, c);
  }

  /** The states of `inflate` between block header and trailer. */
  class Inflate {
    const dmax: nat                  // largest distance the header allows
    const win: Window
    const io: Output
    var mode: Mode
    var length: nat                  // literal value, or bytes left to copy
    var offset: nat
    var stored: seq<byte>            // input still to come of a stored block
    var tokens: seq<Token>           // what the bit decoder will still deliver
    ghost var refused: seq<Token>    // the match that was too far back

    ghost predicate Valid()
      reads this, io, win, win.cells
    {
      && io.win == win && io.Valid() && WellFormed(tokens)
      && (mode != Bad && win.cells == null ==> win.recorded == [])
      && (mode == Lit ==> length < 256)
      && (mode == MatchCopy ==> 1 <= length && 1 <= offset <= dmax)
      && (mode == StoredCopy ==> length == |stored|)
      && (mode == Bad ==> |refused| == 1)
    }

    /** The tokens not yet fully written, the one in progress first. */
    ghost function Pending(): seq<Token>
      requires mode == Lit ==> length < 256
      reads this
    {
      match mode
      case Lit => [Literal(length)] + tokens
      case MatchCopy => [Match(length, offset)] + tokens
      case StoredCopy => [Stored(stored)] + tokens
      case Bad => refused + tokens
      case Len => tokens
    }

    /** What is written so far, followed by what is still pending, ends as `goal` does. */
    ghost predicate OnTrack(goal: Stop)
      requires Valid()
      reads this, io, win, win.cells
    {
      Expand(io.History(), Pending(), dmax) == goal
    }

    /** The rest of the call ends as foretold. */
    ghost predicate OnCourse(end: Outcome)
      requires Valid()
      reads this, io, win, win.cells
    {
      Run(Pending(), |io.out|, io.Room(), dmax, win.whave) == end
    }

    /** Refused, and rightly so. */
    ghost predicate Refuses()
      requires Valid()
      reads this, io, win, win.cells
    {
      mode == Bad && Blocked(refused[0], |io.out|, io.Room(), dmax, win.whave)
    }

    constructor (win: Window, dmax: nat, tokens: seq<Token>)
      requires win.Valid() && (win.cells == null ==> win.recorded == []) && WellFormed(tokens)
      ensures Valid() && mode == Len && this.win == win && this.dmax == dmax && this.tokens == tokens
      ensures fresh(io) && io.out == []
    {
      this.win, this.dmax, this.tokens := win, dmax, tokens;
      mode, length, offset, stored, refused := Len, 0, 0, [], [];
      io := new Output(win);
    }

    /** A length and distance have been read: copy at once on the fast path, or leave
        the copy to the MATCH state. */
    method StartMatch(len: nat, dist: nat, fast: bool, ghost goal: Stop, ghost end: Outcome)
      requires Valid() && mode == Len && 1 <= len && 1 <= dist
      requires Expand(io.History(), [Match(len, dist)] + tokens, dmax) == goal
      requires Run([Match(len, dist)] + tokens, |io.out|, io.Room(), dmax, win.whave) == end
      modifies this`mode, this`length, this`offset, this`refused, io
      ensures Valid() && OnTrack(goal) && OnCourse(end) && io.Room() == old(io.Room())
      ensures mode == Bad ==> Refuses()
    {
      hide Expand, Run;
      ExpandFirst(io.History(), Match(len, dist), tokens, dmax);
      RunFirst(Match(len, dist), tokens, |io.out|, io.Room(), dmax, win.whave);
      if dist > dmax {
        mode, refused := Bad, [Match(len, dist)];
      } else if fast && io.availOut >= 258 && len <= 258 {
        var ok := io.FastMatch(len, dist);
        if !ok {
          mode, refused := Bad, [Match(len, dist)];
        }
      } else {
        mode, length, offset := MatchCopy, len, dist;
      }
    }

    /** LEN: take the next token. */
    method Fetch(fast: bool, ghost goal: Stop, ghost end: Outcome)
      requires Valid() && mode == Len && tokens != [] && OnTrack(goal) && OnCourse(end)
      modifies this, io
      ensures Valid() && OnTrack(goal) && OnCourse(end) && io.Room() == old(io.Room())
      ensures tokens == old(tokens)[1..]
      ensures mode == Bad ==> Refuses()
    {
      hide Expand, Run;
      var t := tokens[0];
      assert tokens == [t] + tokens[1..];
      assert t in tokens;
      tokens := tokens[1..];
      match t
      case Literal(b) =>
        mode, length := Lit, b;
      case Stored(data) =>
        mode, length, stored := StoredCopy, |data|, data;
      case Match(len, dist) =>
        StartMatch(len, dist, fast, goal, end);
    }

    /** LIT. */
    method WriteLiteral(ghost goal: Stop, ghost end: Outcome)
      requires Valid() && mode == Lit && 0 < io.availOut && OnTrack(goal) && OnCourse(end)
      modifies this`mode, io
      ensures Valid() && OnTrack(goal) && OnCourse(end)
      ensures mode == Len && io.availOut < old(io.availOut) && io.Room() == old(io.Room())
    {
      hide Expand, Run;
      RunFirst(Literal(length), tokens, |io.out|, io.Room(), dmax, win.whave);
      ExpandFirst(io.History(), Literal(length), tokens, dmax);
      io.Append([length]);
      mode := Len;
    }

    /** MATCH. */
    method WriteMatch(ghost goal: Stop, ghost end: Outcome)
      requires Valid() && mode == MatchCopy && 0 < io.availOut && OnTrack(goal) && OnCourse(end)
      modifies this`mode, this`length, this`refused, io
      ensures Valid() && OnTrack(goal) && OnCourse(end) && mode in {Len, MatchCopy, Bad} && io.Room() == old(io.Room())
      ensures if mode == Bad then io.availOut == old(io.availOut) else io.availOut < old(io.availOut)
      ensures mode == Bad ==> Refuses()
    {
      hide Expand, Run, Extend, Represents, WellFormed;
      ghost var h, done := io.History(), |io.out|;
      ExpandFirst(h, Match(length, offset), tokens, dmax);
      RunFirst(Match(length, offset), tokens, done, io.Room(), dmax, win.whave);
      var ok, left := io.MatchStep(length, offset);
      if !ok {
        mode, refused := Bad, [Match(length, offset)];
        assert io.History() == h;
      } else if left == 0 {
        mode := Len;
      } else {
        ExpandMatchInParts(h, offset, length, left, tokens, dmax);
        RunMatchInParts(length, offset, left, tokens, done, io.Room(), dmax, win.whave);
        length := left;
      }
    }

    /** STORED: as much as there is input and room for. */
    method WriteStored(inputReady: nat, ghost goal: Stop, ghost end: Outcome) returns (n: nat)
      requires Valid() && mode == StoredCopy && OnTrack(goal) && OnCourse(end)
      modifies this`mode, this`length, this`stored, io
      ensures Valid() && OnTrack(goal) && OnCourse(end) && mode in {Len, StoredCopy}
      ensures io.availOut == old(io.availOut) - n && io.Room() == old(io.Room())
      ensures mode == StoredCopy && n == 0 ==> length == old(length) != 0 && (inputReady == 0 || io.availOut == 0)
    {
      hide Expand, Run;
      n := Min(Min(length, inputReady), io.availOut);
      if length == 0 {
        ExpandFirst(io.History(), Stored(stored), tokens, dmax);
        RunFirst(Stored(stored), tokens, |io.out|, io.Room(), dmax, win.whave);
        assert io.History() + stored == io.History();
        mode := Len;
      } else {
        ExpandStoredInParts(io.History(), stored, n, tokens, dmax);
        RunStoredInParts(stored, n, tokens, |io.out|, io.Room(), dmax, win.whave);
        io.Append(stored[..n]);
        stored, length := stored[n..], length - n;
      }
    }

    /** The tail of `inflate`: hand the written bytes to the caller and record them. */
    method EndCall(ghost goal: Stop) returns (written: seq<byte>)
      requires Valid() && OnTrack(goal)
      modifies io, win, win.cells
      ensures Valid() && OnTrack(goal) && io.out == [] && written == old(io.out)
      ensures win.recorded == old(win.recorded) + written
      ensures win.Stale() <==> old(win.Stale())
      ensures win.cells == old(win.cells) || fresh(win.cells)
    {
      hide Expand;
      written := io.out;
      if win.wsize != 0 || (written != [] && mode != Bad) {
        win.Update(written);
      } else {
        win.recorded := win.recorded + written;
      }
      io.out := [];
      assert win.recorded + [] == win.recorded;
    }

    /** Nothing is left to write. */
    predicate Done()
      reads this
    {
      mode == Len && tokens == []
    }

    /** The state loop of one call.  How much input there is, and so where the decoder
        stops and when it may take the fast path, is arbitrary; with all of it at hand
        (`whole`) only a full buffer or a match out of reach stops it before the end. */
    method Decode(whole: bool, ghost goal: Stop, ghost end: Outcome)
      requires Valid() && OnTrack(goal) && OnCourse(end)
      modifies this, io
      ensures Valid() && OnTrack(goal) && io.Room() == old(io.Room())
      ensures whole && old(mode) != Bad ==> end == Outcome(mode == Bad, |io.out|, Pending())
      ensures whole ==> mode == Bad || Done() || io.availOut == 0
      ensures old(Done()) ==> Done()
      ensures old(mode) == Bad ==>
                mode == Bad && Pending() == old(Pending()) && refused == old(refused) && io.out == old(io.out)
      ensures old(mode) != Bad && mode == Bad ==> Refuses()
    {
      hide OnTrack, OnCourse, Run;
      while mode != Bad
        invariant Valid() && OnTrack(goal) && OnCourse(end) && io.Room() == old(io.Room())
        invariant old(Done()) ==> Done()
        invariant old(mode) == Bad ==>
                    mode == Bad && Pending() == old(Pending()) && refused == old(refused) && io.out == old(io.out)
        invariant old(mode) != Bad && mode == Bad ==> Refuses()
        decreases |tokens|, io.availOut, if mode in {Len, Bad} then 0 else 1
      {
        if mode == Len {
          if tokens == [] {
            break;
          }
          var starved: bool := *;
          if starved && !whole {
            break;
          }
          var fast: bool := *;
          Fetch(fast, goal, end);
        } else if mode == StoredCopy {
          var ready: nat := *;
          if whole {
            ready := length;
          }
          var n := WriteStored(ready, goal, end);
          if mode == StoredCopy && n == 0 {
            break;
          }
        } else if io.availOut == 0 {
          break;
        } else if mode == Lit {
          WriteLiteral(goal, end);
        } else {
          WriteMatch(goal, end);
        }
      }
      if whole && old(mode) != Bad {
        AtTheEnd(end);
      }
    }

    /** Where the loop stops with all input at hand, the call is over. */
    lemma AtTheEnd(end: Outcome)
      requires Valid() && OnCourse(end)
      requires Refuses() || Done() || (io.availOut == 0 && (mode == StoredCopy ==> length != 0) && mode !in {Len, Bad})
      ensures end == Outcome(mode == Bad, |io.out|, Pending())
    {
      hide Run;
      if Done() {
        RunNothing(|io.out|, io.Room(), dmax, win.whave);
      } else {
        var t := Pending()[0];
        assert Pending() == [t] + tokens;
        RunFirst(t, tokens, |io.out|, io.Room(), dmax, win.whave);
        if mode == StoredCopy {
          assert stored[0..] == stored;
        }
      }
    }

    /** One call with room for `avail` bytes: it writes a stretch of the expansion, and with all input at
        hand what it writes, what it leaves and whether it refuses follow from what was left before. */
    method Call(avail: nat, whole: bool, ghost goal: Stop) returns (written: seq<byte>)
      requires Valid() && io.out == [] && OnTrack(goal)
      modifies this, io, win, win.cells
      ensures Valid() && OnTrack(goal) && io.out == []
      ensures old(Done()) ==> Done()
      ensures |written| <= avail && (whole ==> mode == Bad || Done() || |written| == avail)
      ensures old(mode) == Bad ==>
                mode == Bad && Pending() == old(Pending()) && refused == old(refused) && written == []
      ensures old(mode) != Bad && mode == Bad ==> Blocked(refused[0], |written|, avail, dmax, old(win.whave))
      ensures old(mode) != Bad && whole ==>
                Run(old(Pending()), 0, avail, dmax, old(win.whave)) == Outcome(mode == Bad, |written|, Pending())
      ensures win.recorded == old(win.recorded) + written
      ensures win.Stale() <==> old(win.Stale())
      ensures win.cells == old(win.cells) || fresh(win.cells)
    {
      hide Expand, Run;
      io.availOut := avail;
      Decode(whole, goal, Run(Pending(), 0, avail, dmax, win.whave));
      written := EndCall(goal);
    }

    /** How much the window keeps of what was recorded. */
    lemma WindowKeeps()
      requires Valid() && mode != Bad
      ensures win.whave == Kept(win.Stale(), win.size, |win.recorded|)
    {
    }

    /** After calls that delivered `chunks` to the first buffers of `rooms`. */
    ghost predicate Delivered(ts: seq<Token>, rooms: seq<nat>, m: Limits, whole: bool, chunks: seq<seq<byte>>)
      requires Valid()
      reads this, io, win, win.cells
    {
      && |chunks| <= |rooms| && m.dmax == dmax && m.size == win.size && (m.stale <==> win.Stale())
      && |win.recorded| == m.before + |Flatten(chunks)|
      && (forall j | 0 <= j < |chunks| :: |chunks[j]| <= rooms[j])
      && (mode == Bad ==> Refused(refused[0], m, chunks))
      && (whole ==>
            && Told(ts, rooms, m, |chunks|, mode == Bad, |Flatten(chunks)|, Pending())
            && Shared(chunks, rooms, |Flatten(chunks)|)
            && (mode == Bad || Done() || |Flatten(chunks)| == Begin(rooms, |chunks|)))
    }

    /** One more call. */
    method NextCall(rooms: seq<nat>, whole: bool, ghost goal: Stop, ghost ts: seq<Token>, ghost m: Limits,
                    ghost chunks: seq<seq<byte>>, i: nat)
      returns (written: seq<byte>)
      requires Valid() && io.out == [] && OnTrack(goal) && WellFormed(ts)
      requires i == |chunks| < |rooms| && Delivered(ts, rooms, m, whole, chunks)
      modifies this, io, win, win.cells
      ensures Valid() && io.out == [] && OnTrack(goal) && Delivered(ts, rooms, m, whole, chunks + [written])
      ensures win.recorded == old(win.recorded) + written
      ensures win.cells == old(win.cells) || fresh(win.cells)
    {
      hide Expand, OnTrack, Refused, Blocked, Run, Told, Shared, Begin, Kept;
      ghost var earlier, n, left := mode == Bad, |Flatten(chunks)|, Pending();
      if !earlier {
        WindowKeeps();
      }
      written := Call(rooms[i], whole, goal);
      FlattenNext(chunks, written);
      if mode == Bad {
        RefusedStays(refused[0], m, chunks, written, rooms[i], earlier);
      }
      if whole {
        if earlier {
          ToldStays(ts, rooms, m, i, n, left);
        } else {
          ToldNext(ts, rooms, m, i, n, left);
        }
        ToldBound(ts, rooms, m, i, earlier, n, left);
        if left == [] && !earlier {
          RunNothing(0, rooms[i], dmax, old(win.whave));
        }
        SharedNext(chunks, rooms, n, written);
        BeginNext(rooms, i);
      }
    }

    /** Any number of calls with buffers of any sizes: the chunks they deliver, joined, are
        exactly what the stream's history grows by, and the stream keeps its meaning. */
    method Calls(rooms: seq<nat>, whole: bool, ghost goal: Stop, ghost ts: seq<Token>, ghost m: Limits)
      returns (chunks: seq<seq<byte>>)
      requires Valid() && io.out == [] && OnTrack(goal) && WellFormed(ts) && mode == Len && tokens == ts
      requires m == Limits(dmax, win.size, win.Stale(), |win.recorded|)
      modifies this, io, win, win.cells
      ensures Valid() && OnTrack(goal) && io.out == []
      ensures win.recorded == old(win.recorded) + Flatten(chunks)
      ensures |chunks| == |rooms| && Delivered(ts, rooms, m, whole, chunks)
    {
      hide Expand, OnTrack, Delivered;
      chunks := [];
      Undelivered(ts, rooms, m, whole);
      for i := 0 to |rooms|
        invariant Valid() && OnTrack(goal) && io.out == [] && |chunks| == i && Delivered(ts, rooms, m, whole, chunks)
        invariant win.recorded == old(win.recorded) + Flatten(chunks)
        invariant win.cells == old(win.cells) || fresh(win.cells)
      {
        var written := NextCall(rooms, whole, goal, ts, m, chunks, i);
        FlattenNext(chunks, written);
        chunks := chunks + [written];
      }
    }

    lemma Undelivered(ts: seq<Token>, rooms: seq<nat>, m: Limits, whole: bool)
      requires Valid() && mode == Len && tokens == ts && m == Limits(dmax, win.size, win.Stale(), |win.recorded|)
      ensures Delivered(ts, rooms, m, whole, [])
    {
      BeginFirst(rooms);
    }
  }

  /** The match was refused in call `i`: it was out of reach there, and nothing came after. */
  ghost predicate RefusedIn(t: Token, m: Limits, chunks: seq<seq<byte>>, i: nat) {
    && i < |chunks| && (forall j | i < j < |chunks| :: chunks[j] == [])
    && Beyond(t, m.dmax, |chunks[i]|, Kept(m.stale, m.size, m.before + |Flatten(chunks[..i])|))
  }

  ghost predicate Refused(t: Token, m: Limits, chunks: seq<seq<byte>>) {
    exists i: nat :: RefusedIn(t, m, chunks, i)
  }

  lemma RefusedStays(t: Token, m: Limits, chunks: seq<seq<byte>>, written: seq<byte>, room: nat, earlier: bool)
    requires earlier ==> Refused(t, m, chunks) && written == []
    requires !earlier ==> Blocked(t, |written|, room, m.dmax, Kept(m.stale, m.size, m.before + |Flatten(chunks)|))
    ensures Refused(t, m, chunks + [written])
  {
    if earlier {
      var i: nat :| RefusedIn(t, m, chunks, i);
      assert (chunks + [written])[..i] == chunks[..i];
      assert RefusedIn(t, m, chunks + [written], i);
    } else {
      assert (chunks + [written])[..|chunks|] == chunks;
      assert RefusedIn(t, m, chunks + [written], |chunks|);
    }
  }

  lemma {:induction false} AfterRefusal(chunks: seq<seq<byte>>, i: nat)
    requires i < |chunks| && forall j | i < j < |chunks| :: chunks[j] == []
    ensures |Flatten(chunks)| == |Flatten(chunks[..i])| + |chunks[i]|
    decreases |chunks|
  {
    var n := |chunks| - 1;
    assert chunks == chunks[..n] + [chunks[n]];
    FlattenNext(chunks[..n], chunks[n]);
    if i < n {
      AfterRefusal(chunks[..n], i);
      assert chunks[..n][..i] == chunks[..i];
    }
  }

  /** A stream decoded by any number of calls with buffers of any sizes, after `inflateReset` and an
      optional dictionary.  At every end what is delivered and what is left are a point of the plain
      LZ77 expansion, and a match is refused only when it reaches behind the header's limit, or behind
      the bytes of its call and those kept, which are none in a window allocated before the reset.  With
      all input at hand, every call fills its buffer until the stream ends or a match is refused, and
      the tokens and the sizes of the buffers alone tell whether and where one is. */
  method InflateStream(win: Window, dmax: nat, dictionary: seq<byte>, tokens: seq<Token>, rooms: seq<nat>, whole: bool)
    returns (chunks: seq<seq<byte>>, refused: bool, finished: bool, ghost left: seq<Token>)
    requires win.Valid() && WellFormed(tokens)
    modifies win, win.cells
    ensures Expand(dictionary + Flatten(chunks), left, dmax) == Expand(dictionary, tokens, dmax)
    ensures dictionary + Flatten(chunks) <= Expand(dictionary, tokens, dmax).bytes
    ensures finished <==> !refused && left == []
    ensures |chunks| == |rooms| && forall i | 0 <= i < |rooms| :: |chunks[i]| <= rooms[i]
    ensures var m := Limits(dmax, win.size, old(win.cells) != null, |dictionary|);
            && (refused ==> left != [] && Refused(left[0], m, chunks))
            && (whole ==>
                  && Shared(chunks, rooms, |Flatten(chunks)|)
                  && (refused <==> exists k: nat, i: nat :: RefusedAt(tokens, rooms, m, k, i))
                  && Told(tokens, rooms, m, |rooms|, refused, |Flatten(chunks)|, left)
                  && (refused || finished || |Flatten(chunks)| == Sum(rooms)))
    ensures refused && dmax <= win.size && old(win.cells) == null ==>
              Expand(dictionary, tokens, dmax) == Stop(dictionary + Flatten(chunks), left)
    ensures whole && |Flatten(chunks)| < Sum(rooms) && dmax <= win.size && old(win.cells) == null ==>
              (refused <==> Expand(dictionary, tokens, dmax).rest != [])
  {
    hide Expand, Refused, Flatten, Sum, Told, Shared, RefusedAt;
    var z := StartStream(win, dmax, dictionary, tokens);
    ghost var m := Limits(dmax, win.size, old(win.cells) != null, |dictionary|);
    chunks := z.Calls(rooms, whole, Expand(dictionary, tokens, dmax), tokens, m);
    refused := z.mode == Bad;
    finished := z.Done();
    left := z.Pending();
    assert z.io.History() == dictionary + Flatten(chunks);
    ExpandExtends(dictionary + Flatten(chunks), left, dmax);
    NothingLeft(dictionary + Flatten(chunks), dmax);
    BeginFirst(rooms);
    if whole {
      ToldRefusal(tokens, rooms, m, refused, |Flatten(chunks)|, left);
    }
    if refused && dmax <= win.size && old(win.cells) == null {
      RefusalEnds(dictionary, chunks, left, m);
    }
  }

  /** After all calls: refused if and only if some call refuses some token. */
  lemma ToldRefusal(ts: seq<Token>, rooms: seq<nat>, m: Limits, refused: bool, n: nat, rest: seq<Token>)
    requires Told(ts, rooms, m, |rooms|, refused, n, rest)
    ensures refused <==> exists k: nat, i: nat :: RefusedAt(ts, rooms, m, k, i)
  {
    if !refused {
      forall k: nat, i: nat ensures !RefusedAt(ts, rooms, m, k, i) {
      }
    }
  }

  lemma NothingLeft(h: seq<byte>, limit: nat)
    ensures Expand(h, [], limit) == Stop(h, [])
  {
  }

  /** With a window as large as the header's limit, a refused match is where plain LZ77 stops too. */
  lemma RefusalEnds(dictionary: seq<byte>, chunks: seq<seq<byte>>, left: seq<Token>, m: Limits)
    requires left != [] && m.dmax <= m.size && !m.stale && m.before == |dictionary| && Refused(left[0], m, chunks)
    ensures Expand(dictionary + Flatten(chunks), left, m.dmax) == Stop(dictionary + Flatten(chunks), left)
  {
    var i: nat :| RefusedIn(left[0], m, chunks, i);
    AfterRefusal(chunks, i);
  }

  method StartStream(win: Window, dmax: nat, dictionary: seq<byte>, tokens: seq<Token>) returns (z: Inflate)
    requires win.Valid() && WellFormed(tokens)
    modifies win, win.cells
    ensures fresh(z) && fresh(z.io) && z.win == win && (win.cells == old(win.cells) || fresh(win.cells))
    ensures z.Valid() && z.io.out == [] && z.OnTrack(Expand(dictionary, tokens, dmax))
    ensures z.mode == Len && win.recorded == dictionary && (win.Stale() <==> old(win.cells) != null)
    ensures z.tokens == tokens && z.dmax == dmax
  {
    win.Reset();
    if dictionary != [] {
      win.Update(dictionary);
    }
    z := new Inflate(win, dmax, tokens);
    assert z.io.History() == dictionary;
  }

  /** After `inflateReset`, a first call writes `data`; a second call then meets a match
      whose distance is in range.  It is accepted if and only if the window had not been
      allocated before the reset: a kept window is never filled again. */
  method MatchAfterReset(win: Window, data: seq<byte>, len: nat, dist: nat) returns (ok: bool, io: Output)
    requires win.Valid()
    requires 1 <= len && 1 <= dist <= |data| && dist <= win.size
    modifies win, win.cells
    ensures ok <==> old(win.cells) == null
    ensures ok ==> io.History() == Extend(data, dist, len)
  {
    win.Reset();
    win.Update(data);
    io := new Output(win);
    io.availOut := len + 258;
    assert io.History() == data;
    ok := io.FastMatch(len, dist);
  }
}
