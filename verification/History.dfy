/** Whether something ever happens in a run, where what happens is judged by the run so far and the next action. */
module History {

  predicate At<A>(acts: seq<A>, i: nat, happens: (seq<A>, A) -> bool)
    requires i < |acts|
  {
    happens(acts[..i], acts[i])
  }

  ghost predicate Ever<A>(acts: seq<A>, happens: (seq<A>, A) -> bool) {
    exists i :: 0 <= i < |acts| && At(acts, i, happens)
  }

  lemma EverNext<A>(acts: seq<A>, happens: (seq<A>, A) -> bool)
    requires |acts| > 0
    ensures Ever(acts, happens) <==> Ever(acts[..|acts| - 1], happens) || happens(acts[..|acts| - 1], acts[|acts| - 1])
  {
    var init := acts[..|acts| - 1];
    forall i | 0 <= i < |init| ensures At(acts, i, happens) <==> At(init, i, happens) { assert init[..i] == acts[..i]; }
    if Ever(init, happens) {
      var i :| 0 <= i < |init| && At(init, i, happens);
      assert At(acts, i, happens);
    }
    if happens(init, acts[|init|]) { assert At(acts, |init|, happens); }
  }
}
