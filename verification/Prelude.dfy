/** Shared value types and the few sequence facts that several models need. */
module Prelude {

  datatype Option<+T> = None | Some(value: T) {
    function GetOr(default: T): T { if Some? then value else default }
  }

  /** No value occurs at two positions. */
  ghost predicate Distinct<T>(s: seq<T>) {
    forall i, j :: 0 <= i < j < |s| ==> s[i] != s[j]
  }

  function Max(a: int, b: int): int { if a < b then b else a }

  function Min(a: int, b: int): int { if a < b then a else b }

  lemma Assoc<T>(a: seq<T>, b: seq<T>, c: seq<T>)
    ensures a + (b + c) == (a + b) + c
  {
  }

  function FlatMap<T, U>(f: T -> seq<U>, s: seq<T>): seq<U> {
    if s == [] then [] else f(s[0]) + FlatMap(f, s[1..])
  }

  lemma {:induction false} FlatMapAppend<T, U>(f: T -> seq<U>, a: seq<T>, b: seq<T>)
    ensures FlatMap(f, a + b) == FlatMap(f, a) + FlatMap(f, b)
  {
    if a == [] {
      assert a + b == b;
    } else {
      FlatMapAppend(f, a[1..], b);
      assert (a + b)[0] == a[0] && (a + b)[1..] == a[1..] + b;
      Assoc(f(a[0]), FlatMap(f, a[1..]), FlatMap(f, b));
    }
  }

  /** A log in which every entry was allowed by the entries before it. */
  ghost predicate SoundLog<E>(mayRecord: (seq<E>, E) -> bool, log: seq<E>) {
    log == [] || (SoundLog(mayRecord, log[..|log| - 1]) && mayRecord(log[..|log| - 1], log[|log| - 1]))
  }

  lemma Record<E>(mayRecord: (seq<E>, E) -> bool, log: seq<E>, e: E)
    requires SoundLog(mayRecord, log) && mayRecord(log, e)
    ensures SoundLog(mayRecord, log + [e])
  {
    assert (log + [e])[..|log|] == log;
  }

  lemma {:induction false} SoundLogAt<E>(mayRecord: (seq<E>, E) -> bool, log: seq<E>, i: nat)
    requires SoundLog(mayRecord, log) && i < |log|
    ensures SoundLog(mayRecord, log[..i]) && mayRecord(log[..i], log[i])
  {
    if i < |log| - 1 {
      var init := log[..|log| - 1];
      SoundLogAt(mayRecord, init, i);
      assert init[..i] == log[..i];
    }
  }

  /** White space as far as the models tell it apart. */
  predicate IsSpace(c: char) { c in " \t\n\r" }
}
