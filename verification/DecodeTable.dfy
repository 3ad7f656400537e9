/**
 * Two-level decoding tables: a root table looked up by the next bits of the input, whose entries
 * are symbols or links to second tables looked up by the bits after them.
 */
module DecodeTable {
  import opened BitStrings

  /** A code word: `len` bits, read as a number least significant bit first. */
  datatype Word = Word(len: nat, bits: nat)

  datatype Entry = Leaf(sym: nat, bits: nat) | Link(curr: nat, offset: nat) | Bad(bits: nat)

  /** The input `x` starts with the word. */
  predicate Agrees(x: nat, w: Word) { Mask(x, w.len) == w.bits }

  // Masks

  lemma {:induction false} MaskMask(x: nat, k: nat, n: nat)
    requires n <= k
    ensures Mask(Mask(x, k), n) == Mask(x, n)
    decreases n
  {
    if n > 0 {
      MaskMask(x / 2, k - 1, n - 1);
    }
  }

  lemma {:induction false} MaskBound(x: nat, n: nat)
    ensures Mask(x, n) < Pow2(n)
    decreases n
  {
    if n > 0 {
      MaskBound(x / 2, n - 1);
    }
  }

  /** An input agrees with a word if its first `d` bits do and the next `k`, looked up in a table,
      agree with the rest. */
  lemma {:induction false} AgreesSplit(x: nat, h: nat, len: nat, d: nat, k: nat)
    requires d <= len <= d + k && h < Pow2(len)
    ensures Mask(x, len) == h <==> Mask(x, d) == Mask(h, d) && Mask(Mask(Shr(x, d), k), len - d) == Shr(h, d)
    decreases d
  {
    if d == 0 {
      MaskMask(x, k, len);
    } else {
      AgreesSplit(x / 2, h / 2, len - 1, d - 1, k);
    }
  }

  // Looking up

  datatype Result = Found(sym: nat, len: nat) | NotFound

  function Find(table: seq<Entry>, root: nat, x: nat): Result
    requires Pow2(root) <= |table|
  {
    MaskBound(x, root);
    var e := table[Mask(x, root)];
    match e
    case Leaf(sym, bits) => Found(sym, bits)
    case Bad(_) => NotFound
    case Link(curr, offset) =>
      var at := offset + Mask(Shr(x, root), curr);
      if at < |table| && table[at].Leaf? then Found(table[at].sym, root + table[at].bits) else NotFound
  }

  // Building

  /** Where entries go: the table being filled starts at `next` and takes `curr` bits; it is the root
      table while `low` is negative, then the second table for the root entry `low`. */
  datatype Cursor = Cursor(root: nat, next: nat, curr: nat, low: int)

  function Drop(k: Cursor): nat { if k.low < 0 then 0 else k.root }

  ghost predicate Shape(table: seq<Entry>, k: Cursor) {
    && Pow2(k.root) <= |table| && k.next + Pow2(k.curr) <= |table|
    && (k.low < 0 ==> k.next == 0 && k.curr == k.root)
    && (k.low >= 0 ==> Pow2(k.root) <= k.next && k.low < Pow2(k.root))
  }

  /** A second table lies behind the root table and before the cursor, or is the one being filled. */
  ghost predicate LinkOk(table: seq<Entry>, k: Cursor, q: nat, e: Entry) {
    && e.Link? && Pow2(k.root) <= e.offset && e.offset + Pow2(e.curr) <= |table|
    && if q == k.low then e == Link(k.curr, k.next) else e.offset + Pow2(e.curr) <= k.next
  }

  /** The input `x` is looked up as symbol `sym` with the word `w`. */
  ghost predicate Placed(table: seq<Entry>, k: Cursor, w: Word, sym: nat, x: nat)
    requires Shape(table, k)
  {
    MaskBound(x, k.root);
    var q := Mask(x, k.root);
    if w.len <= k.root then table[q] == Leaf(sym, w.len)
    else
      && LinkOk(table, k, q, table[q])
      && (MaskBound(Shr(x, k.root), table[q].curr);
          table[table[q].offset + Mask(Shr(x, k.root), table[q].curr)] == Leaf(sym, w.len - k.root))
  }

  ghost predicate AllPlaced(table: seq<Entry>, k: Cursor, ws: seq<Word>, syms: seq<nat>, n: nat)
    requires Shape(table, k) && n <= |ws| == |syms|
  {
    forall i, x: nat | 0 <= i < n && Agrees(x, ws[i]) :: Placed(table, k, ws[i], syms[i], x)
  }

  /** The table being filled is the one for this word. */
  ghost predicate Ready(table: seq<Entry>, k: Cursor, w: Word)
    requires Shape(table, k)
  {
    && w.bits < Pow2(w.len)
    && if w.len <= k.root then k.low < 0
       else k.low == Mask(w.bits, k.root) && table[k.low] == Link(k.curr, k.next) && w.len <= k.root + k.curr
  }

  /** Every entry of the current table whose index continues with the rest of the word is set. */
  ghost predicate Filled(table: seq<Entry>, after: seq<Entry>, base: nat, curr: nat, n: nat, v: nat, e: Entry) {
    && |after| == |table|
    && forall j | 0 <= j < |table| ::
         after[j] == if base <= j < base + Pow2(curr) && Mask(j - base, n) == v then e else table[j]
  }

  lemma FillKeeps(table: seq<Entry>, after: seq<Entry>, k: Cursor, w: Word, sym: nat, c: Word, csym: nat, x: nat)
    requires Shape(table, k) && Placed(table, k, w, sym, x) && Ready(table, k, c) && !Agrees(x, c)
    requires Filled(table, after, k.next, k.curr, c.len - Drop(k), Shr(c.bits, Drop(k)), Leaf(csym, c.len - Drop(k)))
    ensures Shape(after, k) && Placed(after, k, w, sym, x)
  {
    MaskBound(x, k.root);
    var q := Mask(x, k.root);
    if k.low < 0 {
      MaskMask(x, k.root, c.len);
    } else {
      assert after[q] == table[q];
      if w.len > k.root {
        var e := table[q];
        MaskBound(Shr(x, k.root), e.curr);
        if q == k.low {
          AgreesSplit(x, c.bits, c.len, k.root, k.curr);
        }
      }
    }
  }

  lemma FillPlaces(table: seq<Entry>, after: seq<Entry>, k: Cursor, c: Word, csym: nat, x: nat)
    requires Shape(table, k) && Ready(table, k, c) && Agrees(x, c)
    requires Filled(table, after, k.next, k.curr, c.len - Drop(k), Shr(c.bits, Drop(k)), Leaf(csym, c.len - Drop(k)))
    ensures Shape(after, k) && Placed(after, k, c, csym, x)
  {
    MaskBound(x, k.root);
    if k.low < 0 {
      MaskMask(x, k.root, c.len);
    } else {
      AgreesSplit(x, c.bits, c.len, k.root, k.curr);
      MaskBound(Shr(x, k.root), k.curr);
      assert after[k.low] == table[k.low];
    }
  }

  /** No input starts with two of the words. */
  ghost predicate Apart(ws: seq<Word>) {
    forall i, j, x: nat | 0 <= i < j < |ws| && Agrees(x, ws[i]) :: !Agrees(x, ws[j])
  }

  /** Filling in one more symbol. */
  lemma FillStep(table: seq<Entry>, after: seq<Entry>, k: Cursor, ws: seq<Word>, syms: seq<nat>, c: nat)
    requires c < |ws| == |syms| && Apart(ws) && Shape(table, k) && Ready(table, k, ws[c])
             && AllPlaced(table, k, ws, syms, c)
    requires Filled(table, after, k.next, k.curr, ws[c].len - Drop(k), Shr(ws[c].bits, Drop(k)),
                    Leaf(syms[c], ws[c].len - Drop(k)))
    ensures Shape(after, k) && AllPlaced(after, k, ws, syms, c + 1)
  {
    forall i, x: nat | 0 <= i < c + 1 && Agrees(x, ws[i]) ensures Placed(after, k, ws[i], syms[i], x) {
      if i < c {
        FillKeeps(table, after, k, ws[i], syms[i], ws[c], syms[c], x);
      } else {
        FillPlaces(table, after, k, ws[c], syms[c], x);
      }
    }
  }

  function Opened(k: Cursor, curr: nat, low: nat): Cursor {
    Cursor(k.root, k.next + Pow2(k.curr), curr, low)
  }

  lemma OpenKeeps(table: seq<Entry>, k: Cursor, curr: nat, low: nat, w: Word, sym: nat, x: nat)
    requires Shape(table, k) && Placed(table, k, w, sym, x)
    requires low < Pow2(k.root) && low != k.low && k.next + Pow2(k.curr) + Pow2(curr) <= |table|
    requires Mask(x, k.root) != low
    ensures var next := Opened(k, curr, low);
            var after := table[low := Link(curr, next.next)];
            Shape(after, next) && Placed(after, next, w, sym, x)
  {
    hide Mask, Shr, Pow2;
    MaskBound(x, k.root);
    if w.len > k.root {
      MaskBound(Shr(x, k.root), table[Mask(x, k.root)].curr);
    }
  }

  /** Opening a second table for a root entry no symbol so far goes through. */
  lemma OpenStep(table: seq<Entry>, k: Cursor, curr: nat, low: nat, ws: seq<Word>, syms: seq<nat>, c: nat)
    requires c <= |ws| == |syms| && Shape(table, k) && AllPlaced(table, k, ws, syms, c)
    requires low < Pow2(k.root) && low != k.low && k.next + Pow2(k.curr) + Pow2(curr) <= |table|
    requires forall i, x: nat | 0 <= i < c && Agrees(x, ws[i]) :: Mask(x, k.root) != low
    ensures var next := Opened(k, curr, low);
            var after := table[low := Link(curr, next.next)];
            Shape(after, next) && AllPlaced(after, next, ws, syms, c)
  {
    hide Mask, Shr, Placed, Agrees;
    var next := Opened(k, curr, low);
    var after := table[low := Link(curr, next.next)];
    forall i, x: nat | 0 <= i < c && Agrees(x, ws[i]) ensures Placed(after, next, ws[i], syms[i], x) {
      OpenKeeps(table, k, curr, low, ws[i], syms[i], x);
    }
  }

  /** Once every word is placed, every input that starts with one is looked up right. */
  lemma PlacedIsFound(table: seq<Entry>, k: Cursor, ws: seq<Word>, syms: seq<nat>, i: nat, x: nat)
    requires Shape(table, k) && |ws| == |syms| && AllPlaced(table, k, ws, syms, |ws|) && i < |ws| && Agrees(x, ws[i])
    ensures Find(table, k.root, x) == Found(syms[i], ws[i].len)
  {
    assert Placed(table, k, ws[i], syms[i], x);
    MaskBound(x, k.root);
    if ws[i].len > k.root {
      MaskBound(Shr(x, k.root), table[Mask(x, k.root)].curr);
    }
  }
}
