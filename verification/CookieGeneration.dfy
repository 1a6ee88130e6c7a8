/** Cookie generation: the loop stops as soon as the random source has produced more
    distinct names than the table has entries. */
module CookieGeneration {
  import opened CookieNames
  import opened Sessions
  import opened SessionInvariants

  lemma DistinctDrawsGiveDistinctNames(handler: string, drawn: set<NameBytes>) returns (names: set<string>)
    ensures names == set d | d in drawn :: CookieName(handler, d)
    ensures |names| == |drawn|
    decreases drawn
  {
    if drawn == {} {
      names := {};
    } else {
      var d :| d in drawn;
      var rest := DistinctDrawsGiveDistinctNames(handler, drawn - {d});
      names := rest + {CookieName(handler, d)};
      forall e | e in drawn - {d}
        ensures CookieName(handler, e) != CookieName(handler, d)
      {
        if CookieName(handler, e) == CookieName(handler, d) {
          CookieNameInjective(handler, e, d);
        }
      }
      assert names == set e | e in drawn :: CookieName(handler, e);
    }
  }

  lemma SubsetIsSmaller<T>(a: set<T>, b: set<T>)
    requires a <= b
    ensures |a| <= |b|
    decreases a
  {
    if a != {} {
      var x :| x in a;
      SubsetIsSmaller(a - {x}, b - {x});
    }
  }

  /** Pigeonhole: with more distinct draws than taken names the search must succeed. */
  lemma EnoughDrawsSuffice(handler: string, taken: set<string>, draws: seq<NameBytes>)
    requires |set d | d in draws| > |taken|
    ensures FreshName(handler, taken, draws).Some?
  {
    FreshNameIsFirstFree(handler, taken, draws);
    if FreshName(handler, taken, draws).None? {
      var drawn := set d | d in draws;
      var names := DistinctDrawsGiveDistinctNames(handler, drawn);
      forall n | n in names
        ensures n in taken
      {
        var d :| d in drawn && n == CookieName(handler, d);
        var i :| 0 <= i < |draws| && draws[i] == d;
      }
      SubsetIsSmaller(names, taken);
    }
  }

  /** A mask request always completes if the draws include more distinct ones than the
      table has entries; only requests that prove no session can be left searching. */
  lemma MaskCompletes(w: World, s: nat, cookies: seq<Cookie>, draws: seq<NameBytes>, secret: ValueBytes)
    requires Inv(w) && s < |w.sessions| && w.sessions[s].presented.None?
    requires |set d | d in draws| > |w.table|
    ensures Mask(w, s, cookies, draws, secret).completed
  {
    var p := MaskLoop(Present(w, s, cookies), s, cookies);
    TableOnlyShrinks(Present(w, s, cookies), s, cookies);
    SubsetIsSmaller(p.world.table.Keys, w.table.Keys);
    KeysCount(w.table);
    EnoughDrawsSuffice(w.config.name, p.world.table.Keys, draws);
  }

  lemma KeysCount(m: map<string, nat>)
    ensures |m.Keys| == |m|
  {}

  lemma {:induction false} TableOnlyShrinks(w: World, s: nat, cookies: seq<Cookie>)
    requires w.Wired() && s < |w.sessions|
    ensures MaskLoop(w, s, cookies).world.table.Keys <= w.table.Keys
    ensures MaskLoop(w, s, cookies).world.config == w.config
  {
    if cookies != [] {
      TableOnlyShrinks(w, s, cookies[..|cookies| - 1]);
    }
  }
}
