/** Steps left to do, added up over a pool of threads. */
module Work {

  function Total(ws: seq<nat>): nat {
    if |ws| == 0 then 0 else Total(ws[..|ws| - 1]) + ws[|ws| - 1]
  }

  lemma TotalAppend(ws: seq<nat>, w: nat)
    ensures Total(ws + [w]) == Total(ws) + w
  {
    assert (ws + [w])[..|ws|] == ws;
  }

  lemma {:induction false} TotalUpdate(ws: seq<nat>, i: nat, w: nat)
    requires i < |ws|
    ensures Total(ws[i := w]) == Total(ws) - ws[i] + w
  {
    var n := |ws| - 1;
    if i == n {
      assert ws[i := w][..n] == ws[..n];
    } else {
      assert ws[i := w][..n] == ws[..n][i := w];
      TotalUpdate(ws[..n], i, w);
    }
  }

  lemma {:induction false} SomePositive(ws: seq<nat>) returns (i: nat)
    requires Total(ws) > 0
    ensures i < |ws| && ws[i] > 0
  {
    i := |ws| - 1;
    if ws[i] == 0 { i := SomePositive(ws[..i]); }
  }

  lemma {:induction false} AllZero(ws: seq<nat>, i: nat)
    requires Total(ws) == 0 && i < |ws|
    ensures ws[i] == 0
  {
    if i < |ws| - 1 { AllZero(ws[..|ws| - 1], i); }
  }
}
