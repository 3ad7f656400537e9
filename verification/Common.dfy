/** A value that may be missing. */
module Options {
  datatype Option<+T> = None | Some(value: T) {
    predicate IsFailure() { None? }
    function PropagateFailure<U>(): Option<U> requires None? { None }
    function Extract(): T requires Some? { value }
  }
}

/** Concatenations bracketed one way or the other. */
module Sequences {
  lemma Regroup<T>(a: seq<T>, b: seq<T>, c: seq<T>)
    ensures (a + b) + c == a + (b + c)
  {
  }

  lemma Regroup3<T>(s: seq<T>, a: seq<T>, b: seq<T>, c: seq<T>)
    ensures ((s + a) + b) + c == s + (a + (b + c))
  {
    Regroup(s + a, b, c);
    Regroup(s, a, b + c);
  }

  lemma Regroup4<T>(s: seq<T>, a: seq<T>, b: seq<T>, c: seq<T>, d: seq<T>)
    ensures (((s + a) + b) + c) + d == s + (a + (b + (c + d)))
  {
    Regroup((s + a) + b, c, d);
    Regroup(s + a, b, c + d);
    Regroup(s, a, b + (c + d));
  }

  lemma Regroup5<T>(s: seq<T>, a: seq<T>, b: seq<T>, c: seq<T>, d: seq<T>, e: seq<T>)
    ensures ((((s + a) + b) + c) + d) + e == s + (a + (b + (c + (d + e))))
  {
    Regroup(((s + a) + b) + c, d, e);
    Regroup((s + a) + b, c, d + e);
    Regroup(s + a, b, c + (d + e));
    Regroup(s, a, b + (c + (d + e)));
  }
}
