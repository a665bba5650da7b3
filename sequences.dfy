/** Dropping one element of a sequence, by position or, as Python's `list.remove` does, by value. */
module Sequences {

  /**
   * Python's `list.remove(x)`: drops the first element EQUAL to `x`.
   * Where Python raises for an absent `x`, this returns `s` unchanged.
   */
  function RemoveValue<T(==)>(s: seq<T>, x: T): seq<T> {
    if s == [] then []
    else if s[0] == x then s[1..]
    else [s[0]] + RemoveValue(s[1..], x)
  }

  /**
   * When `x` is present, `list.remove(x)` loses exactly one occurrence of it.
   * For an absent `x` Python raises `ValueError`; `RemoveValue` is extended
   * to that case by returning the sequence unchanged.
   */
  lemma {:induction false} RemoveValueCount<T>(s: seq<T>, x: T)
    ensures multiset(RemoveValue(s, x)) == multiset(s) - multiset{x}
    ensures x !in s ==> RemoveValue(s, x) == s
  {
    if s != [] {
      assert s == [s[0]] + s[1..];
      if s[0] != x {
        RemoveValueCount(s[1..], x);
      }
    }
  }

  /** Removing `s[i]` by value drops index `i` when no earlier element equals it. */
  lemma {:induction false} RemoveValueAt<T>(s: seq<T>, i: nat)
    requires i < |s|
    requires forall j :: 0 <= j < i ==> s[j] != s[i]
    ensures RemoveValue(s, s[i]) == s[..i] + s[i + 1..]
  {
    if i == 0 {
      assert s[..0] + s[1..] == s[1..];
    } else {
      var tail, x := s[1..], s[i];
      assert s[0] != x;
      assert tail[i - 1] == x;
      assert forall j :: 0 <= j < i - 1 ==> tail[j] != tail[i - 1] by {
        forall j | 0 <= j < i - 1 ensures tail[j] != tail[i - 1] {
          assert tail[j] == s[j + 1];
        }
      }
      RemoveValueAt(tail, i - 1);
      calc {
        RemoveValue(s, x);
        [s[0]] + RemoveValue(tail, x);
        [s[0]] + (tail[..i - 1] + tail[i..]);
        { assert s[..i] == [s[0]] + tail[..i - 1]; assert s[i + 1..] == tail[i..]; }
        s[..i] + s[i + 1..];
      }
    }
  }

  /**
   * Dropping index `i` shortens the sequence by one, keeps the elements
   * before `i` in place, shifts the later ones down by one, and loses
   * exactly one occurrence of `s[i]`.
   */
  lemma DropIndex<T>(s: seq<T>, i: nat)
    requires i < |s|
    ensures var r := s[..i] + s[i + 1..];
            && |r| == |s| - 1
            && (forall j :: 0 <= j < i ==> r[j] == s[j])
            && (forall j :: i <= j < |s| - 1 ==> r[j] == s[j + 1])
            && multiset(r) + multiset{s[i]} == multiset(s)
  {
    var r := s[..i] + s[i + 1..];
    calc {
      multiset(s);
      { assert s == s[..i] + ([s[i]] + s[i + 1..]); }
      multiset(s[..i]) + (multiset{s[i]} + multiset(s[i + 1..]));
      multiset(r) + multiset{s[i]};
    }
  }
}
