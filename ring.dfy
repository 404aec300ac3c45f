/** The circular queue discipline of the serial buffers: a buffer of n slots with a head
    index (next slot to write) and a tail index (next slot to read), one slot always kept
    free so that "full" and "empty" can be told apart. */
module RingSpec {

  /** The queued elements, oldest first: the slots from `tail` up to, not including,
      `head`, wrapping around the end of the buffer. */
  function Window<T>(s: seq<T>, tail: nat, head: nat): (w: seq<T>)
    requires tail < |s| && head < |s|
    ensures |w| == (if tail <= head then head - tail else |s| - tail + head)
  {
    if tail <= head then s[tail..head] else s[tail..] + s[..head]
  }

  /** The next index after `i` in a buffer of n slots: `(i + 1) % n`. */
  function Next(i: nat, n: nat): (j: nat)
    requires i < n
    ensures j < n
    ensures j == (i + 1) % n
  {
    if i + 1 == n then
      assert (i + 1) % n == 0;
      0
    else
      assert (i + 1) % n == i + 1;
      i + 1
  }

  /** "Full" as the producers test it: the slot after `head` is `tail`. */
  predicate Full(n: nat, tail: nat, head: nat)
    requires tail < n && head < n
  {
    Next(head, n) == tail
  }

  /** A queue is empty exactly when head and tail meet, it never holds more than n-1
      elements, and it is full exactly when it holds n-1. */
  lemma WindowBounds<T>(s: seq<T>, tail: nat, head: nat)
    requires tail < |s| && head < |s|
    ensures Window(s, tail, head) == [] <==> tail == head
    ensures |Window(s, tail, head)| <= |s| - 1
    ensures Full(|s|, tail, head) <==> |Window(s, tail, head)| == |s| - 1
  {
  }

  /** Storing x at `head` and advancing `head`, when the queue is not full, appends x and
      keeps every element already queued. */
  lemma WindowPush<T>(s: seq<T>, tail: nat, head: nat, x: T)
    requires tail < |s| && head < |s| && !Full(|s|, tail, head)
    ensures Window(s[head := x], tail, Next(head, |s|)) == Window(s, tail, head) + [x]
  {
    var s' := s[head := x];
    var w := Window(s, tail, head);
    var w' := Window(s', tail, Next(head, |s|));
    assert |w'| == |w| + 1;
    forall i | 0 <= i < |w'|
      ensures w'[i] == (w + [x])[i]
    {
      if tail <= head {
        assert w'[i] == s'[tail + i];
      } else if i < |s| - tail {
        assert w'[i] == s'[tail + i];
      } else {
        assert w'[i] == s'[i - (|s| - tail)];
      }
    }
  }

  /** Taking the element at `tail` and advancing `tail`, when the queue is not empty,
      removes the oldest element and keeps the rest in order. */
  lemma WindowPop<T>(s: seq<T>, tail: nat, head: nat)
    requires tail < |s| && head < |s| && tail != head
    ensures Window(s, tail, head) != [] && Window(s, tail, head)[0] == s[tail]
    ensures Window(s, Next(tail, |s|), head) == Window(s, tail, head)[1..]
  {
    var w := Window(s, tail, head);
    var w' := Window(s, Next(tail, |s|), head);
    assert |w'| == |w| - 1;
    forall i | 0 <= i < |w'|
      ensures w'[i] == w[i + 1]
    {
      if tail < head {
        assert w'[i] == s[tail + 1 + i];
      } else if tail + 1 == |s| {
        assert w'[i] == s[i];
      } else if i < |s| - tail - 1 {
        assert w'[i] == s[tail + 1 + i];
      } else {
        assert w'[i] == s[i - (|s| - tail - 1)];
      }
    }
  }

  /** Writing a slot that is not queued, or changing nothing, leaves the queue as it was. */
  lemma WindowFrame<T>(s: seq<T>, s': seq<T>, tail: nat, head: nat)
    requires tail < |s| && head < |s| && |s'| == |s|
    requires forall i :: 0 <= i < |s| && s[i] != s'[i] ==>
               (if tail <= head then !(tail <= i < head) else head <= i < tail)
    ensures Window(s', tail, head) == Window(s, tail, head)
  {
    var w := Window(s, tail, head);
    var w' := Window(s', tail, head);
    forall i | 0 <= i < |w|
      ensures w'[i] == w[i]
    {
      if tail <= head || i < |s| - tail {
        assert w'[i] == s'[tail + i] && w[i] == s[tail + i];
      } else {
        assert w'[i] == s'[i - (|s| - tail)] && w[i] == s[i - (|s| - tail)];
      }
    }
  }
}
