/** The cursor arithmetic of the next and previous buttons: one step forward
    or back through the deck, wrapping around at either end. */
module Navigation {
  import opened Js

  /** The cursor after "next": `(prev + 1) % words.length`. */
  function NextIndex(prev: Num, len: nat): (r: Num)
    ensures len == 0 || prev.NaN? ==> r == NaN
    ensures prev.Finite? && 0 <= prev.v < len ==>
      r == Finite(if prev.v + 1 == len then 0 else prev.v + 1)
  {
    Mod(Plus(prev, 1), len)
  }

  /** The cursor after "previous": `(prev - 1 + words.length) % words.length`. */
  function PrevIndex(prev: Num, len: nat): (r: Num)
    ensures len == 0 || prev.NaN? ==> r == NaN
    ensures prev.Finite? && 0 <= prev.v < len ==>
      r == Finite(if prev.v == 0 then len - 1 else prev.v - 1)
  {
    Mod(Plus(Plus(prev, -1), len), len)
  }

  /** The cursor after pressing "next" `k` times. */
  function NextTimes(prev: Num, len: nat, k: nat): Num
  {
    if k == 0 then prev else NextIndex(NextTimes(prev, len, k - 1), len)
  }

  /** Going forward then back, or back then forward, returns to the card
      one started from, and neither step leaves the deck. */
  lemma NextPrevInverse(i: nat, len: nat)
    requires i < len
    ensures NextIndex(Finite(i), len).Finite? && NextIndex(Finite(i), len).v < len
    ensures PrevIndex(Finite(i), len).Finite? && PrevIndex(Finite(i), len).v < len
    ensures PrevIndex(NextIndex(Finite(i), len), len) == Finite(i)
    ensures NextIndex(PrevIndex(Finite(i), len), len) == Finite(i)
  {
    PrevUndoesNext(i, len);
    NextUndoesPrev(i, len);
  }

  /** "previous" after "next" returns to the starting card. */
  lemma PrevUndoesNext(i: nat, len: nat)
    requires i < len
    ensures PrevIndex(NextIndex(Finite(i), len), len) == Finite(i)
  {
    var n := if i + 1 == len then 0 else i + 1;
    assert NextIndex(Finite(i), len) == Finite(n);
    assert PrevIndex(Finite(n), len) == Finite(i);
  }

  /** "next" after "previous" returns to the starting card. */
  lemma NextUndoesPrev(i: nat, len: nat)
    requires i < len
    ensures NextIndex(PrevIndex(Finite(i), len), len) == Finite(i)
  {
    var p := if i == 0 then len - 1 else i - 1;
    assert PrevIndex(Finite(i), len) == Finite(p);
    assert NextIndex(Finite(p), len) == Finite(i);
  }

  /** Either button moves the cursor to a different card exactly when the
      deck has more than one card; on a one-card deck the cursor stays put. */
  lemma MovesIffSeveralCards(i: nat, len: nat)
    requires i < len
    ensures NextIndex(Finite(i), len) != Finite(i) <==> len > 1
    ensures PrevIndex(Finite(i), len) != Finite(i) <==> len > 1
  {
  }

  /** Dafny's remainder of a successor, stepped from the remainder itself. */
  lemma ModSucc(j: nat, n: nat)
    requires n > 0
    ensures (j + 1) % n == if j % n + 1 == n then 0 else j % n + 1
  {
    var q, m := j / n, j % n;
    assert j == q * n + m;
    if m + 1 == n {
      DivModUnique(j + 1, n, q + 1, 0);
    } else {
      DivModUnique(j + 1, n, q, m + 1);
    }
  }

  /** Pressing "next" `k` times moves the cursor `k` cards forward, modulo
      the deck length. */
  lemma {:induction false} NextTimesAdvances(i: nat, len: nat, k: nat)
    requires i < len
    ensures NextTimes(Finite(i), len, k) == Finite((i + k) % len)
  {
    if k == 0 {
      DivModUnique(i, len, 0, i);
    } else {
      var j := i + k - 1;
      NextTimesAdvances(i, len, k - 1);
      ModSucc(j, len);
      var m := j % len;
      assert 0 <= m < len;
      calc {
        NextTimes(Finite(i), len, k);
        NextIndex(Finite(m), len);
        Finite(if m + 1 == len then 0 else m + 1);
        Finite((j + 1) % len);
      }
    }
  }

  /** Pressing "next" as many times as the deck has cards comes back to the
      starting card, and no fewer presses do. */
  lemma NextCycle(i: nat, len: nat)
    requires i < len
    ensures NextTimes(Finite(i), len, len) == Finite(i)
    ensures forall k :: 0 < k < len ==> NextTimes(Finite(i), len, k) != Finite(i)
  {
    NextTimesAdvances(i, len, len);
    DivModUnique(i + len, len, 1, i);
    forall k | 0 < k < len
      ensures NextTimes(Finite(i), len, k) != Finite(i)
    {
      NotBackEarly(i, len, k);
    }
  }

  /** Fewer presses than the deck has cards never land on the starting card. */
  lemma NotBackEarly(i: nat, len: nat, k: nat)
    requires i < len && 0 < k < len
    ensures NextTimes(Finite(i), len, k) != Finite(i)
  {
    NextTimesAdvances(i, len, k);
    if i + k < len {
      DivModUnique(i + k, len, 0, i + k);
    } else {
      DivModUnique(i + k, len, 1, i + k - len);
    }
  }

  /** On an empty deck either button turns the cursor into NaN, and it
      stays NaN however often they are pressed. */
  lemma EmptyDeckCursorIsNaN(prev: Num, k: nat)
    requires k > 0
    ensures NextTimes(prev, 0, k) == NaN
    ensures PrevIndex(prev, 0) == NaN
  {
  }
}
