// What several models share: optional values, lists without repetition, and traces.
module Collections {

  datatype Option<T> = None | Some(value: T)

  predicate NoRepeat<T(==)>(s: seq<T>)
  {
    forall i, j :: 0 <= i < j < |s| ==> s[i] != s[j]
  }

  // A trace grows at its end; its prefixes are its earlier moments.
  datatype Trace<E> = Start | Then(before: Trace<E>, last: E)

  predicate Prefix<E(==)>(p: Trace<E>, t: Trace<E>)
  {
    p == t || (t.Then? && Prefix(p, t.before))
  }

  function Length<E>(t: Trace<E>): nat
  {
    if t.Start? then 0 else Length(t.before) + 1
  }

  function Repeat<E>(t: Trace<E>, e: E, n: nat): Trace<E>
  {
    if n == 0 then t else Then(Repeat(t, e, n - 1), e)
  }

  lemma {:induction false} PrefixLength<E>(p: Trace<E>, t: Trace<E>)
    requires Prefix(p, t)
    ensures Length(p) <= Length(t) && (Length(p) == Length(t) ==> p == t)
  {
    if p != t {
      PrefixLength(p, t.before);
    }
  }

  // How often e occurs.
  function Occurrences<E(==)>(t: Trace<E>, e: E): nat
  {
    if t.Start? then 0 else Occurrences(t.before, e) + if t.last == e then 1 else 0
  }

  lemma {:induction false} RepeatOccurs<E>(t: Trace<E>, e: E, n: nat, x: E)
    ensures Occurrences(Repeat(t, e, n), x) == Occurrences(t, x) + if x == e then n else 0
    ensures Prefix(t, Repeat(t, e, n))
    ensures Length(Repeat(t, e, n)) == Length(t) + n
  {
    if n > 0 {
      RepeatOccurs(t, e, n - 1, x);
    }
  }

  lemma {:induction false} PrefixTransitive<E>(p: Trace<E>, q: Trace<E>, t: Trace<E>)
    requires Prefix(p, q) && Prefix(q, t)
    ensures Prefix(p, t)
  {
    if q != t {
      PrefixTransitive(p, q, t.before);
    }
  }
}
