/** What the mask loop means: which cookies it accepts, what it forwards, expires and
    deletes, and how the data of several sessions are merged. Everything here is said in
    terms of the store before the request and the whole list of incoming cookies. */
module SessionMerge {
  import opened Wrappers
  import opened CookieNames
  import opened Sessions
  import opened SessionInvariants

  /** Some cookie in the list names this table entry but is not its proof. */
  ghost predicate Spoiled(w: World, cookies: seq<Cookie>, n: string)
    requires w.Wired()
  {
    exists j :: 0 <= j < |cookies| && cookies[j].name == n && Owns(w.config.name, n) && !w.Accepts(cookies[j])
  }

  /** Cookie i is good: it proves an entry that no earlier cookie of the request spoiled. */
  ghost predicate Good(w: World, cookies: seq<Cookie>, i: nat)
    requires w.Wired() && i < |cookies|
  {
    w.Accepts(cookies[i]) && !Spoiled(w, cookies[..i], cookies[i].name)
  }

  /** The cores proved by the good cookies, in order, repeats included. */
  ghost function Proved(w: World, cookies: seq<Cookie>): (r: seq<nat>)
    requires w.Wired()
    ensures forall i :: 0 <= i < |r| ==> r[i] < |w.cores|
  {
    if cookies == [] then []
    else
      var n := |cookies| - 1;
      var front := Proved(w, cookies[..n]);
      if Good(w, cookies, n) then front + [w.sessions[w.table[cookies[n].name]].core] else front
  }

  ghost function Foreign(handler: string, cookies: seq<Cookie>): seq<Cookie> {
    if cookies == [] then []
    else
      var n := |cookies| - 1;
      Foreign(handler, cookies[..n]) + if Owns(handler, cookies[n].name) then [] else [cookies[n]]
  }

  ghost function Expired(w: World, cookies: seq<Cookie>): seq<SetCookie>
    requires w.Wired()
  {
    if cookies == [] then []
    else
      var n := |cookies| - 1;
      Expired(w, cookies[..n]) +
      if Owns(w.config.name, cookies[n].name) && !Good(w, cookies, n)
      then [SetCookie(cookies[n].name, cookies[n].value, "", "", -1, false)] else []
  }

  /** A client that receives this drops the cookie: same name and value, no scope, and a
      negative lifetime. */
  ghost predicate Drops(x: SetCookie, c: Cookie) {
    x.name == c.name && x.value == c.value && x.maxAge == -1 && x.path == "" && x.domain == "" && !x.httpOnly
  }

  /** These are the positions of the owned cookies that prove nothing. */
  ghost predicate BadAt(w: World, cookies: seq<Cookie>, at: seq<nat>)
    requires w.Wired()
  {
    && Positions(at, |cookies|)
    && forall i: nat :: i in at <==> i < |cookies| && Owns(w.config.name, cookies[i].name) && !Good(w, cookies, i)
  }

  lemma GoodInFront(w: World, cookies: seq<Cookie>)
    requires w.Wired() && cookies != []
    ensures forall i: nat :: i < |cookies| - 1 ==> (Good(w, cookies[..|cookies| - 1], i) <==> Good(w, cookies, i))
  {
    var front := cookies[..|cookies| - 1];
    forall i: nat | i < |front|
      ensures Good(w, front, i) <==> Good(w, cookies, i)
    {
      assert front[..i] == cookies[..i];
    }
  }

  lemma BadInFront(w: World, cookies: seq<Cookie>, at: seq<nat>)
    requires w.Wired() && cookies != []
    requires BadAt(w, cookies[..|cookies| - 1], at)
    ensures var n := |cookies| - 1;
      if Owns(w.config.name, cookies[n].name) && !Good(w, cookies, n) then BadAt(w, cookies, at + [n])
      else BadAt(w, cookies, at)
  {
    var n := |cookies| - 1;
    GoodInFront(w, cookies);
    forall i: nat
      ensures i in at <==> i < n && Owns(w.config.name, cookies[i].name) && !Good(w, cookies, i)
    {
      if i < n {
        assert cookies[..n][i] == cookies[i];
      }
    }
  }

  /** There is one removal for each owned cookie that proves nothing, in order. */
  lemma {:induction false} ExpiredDropsTheBad(w: World, cookies: seq<Cookie>) returns (at: seq<nat>)
    requires w.Wired()
    ensures BadAt(w, cookies, at)
    ensures |Expired(w, cookies)| == |at|
    ensures forall k :: 0 <= k < |at| ==> Drops(Expired(w, cookies)[k], cookies[at[k]])
  {
    at := [];
    if cookies != [] {
      var n := |cookies| - 1;
      at := ExpiredDropsTheBad(w, cookies[..n]);
      BadInFront(w, cookies, at);
      if Owns(w.config.name, cookies[n].name) && !Good(w, cookies, n) {
        at := at + [n];
      }
    }
  }

  /** What is forwarded are the cookies of others, in order. */
  lemma {:induction false} ForeignInOrder(handler: string, cookies: seq<Cookie>) returns (at: seq<nat>)
    ensures Positions(at, |cookies|)
    ensures forall i: nat :: i in at <==> i < |cookies| && !Owns(handler, cookies[i].name)
    ensures |Foreign(handler, cookies)| == |at|
    ensures forall k :: 0 <= k < |at| ==> Foreign(handler, cookies)[k] == cookies[at[k]]
  {
    at := [];
    if cookies != [] {
      var n := |cookies| - 1;
      at := ForeignInOrder(handler, cookies[..n]);
      if !Owns(handler, cookies[n].name) {
        at := at + [n];
      }
    }
  }

  /** The data of a list of cores merged so that, key by key, the first core holding it wins. */
  ghost function MergedData(w: World, cores: seq<nat>): Data
    requires forall i :: 0 <= i < |cores| ==> cores[i] < |w.cores|
  {
    if cores == [] then map[]
    else
      var n := |cores| - 1;
      w.cores[cores[n]].data + MergedData(w, cores[..n])
  }

  /** Core number i of the list is the first one that holds the key. */
  ghost predicate FirstHolder(w: World, cores: seq<nat>, key: string, i: int) {
    && 0 <= i < |cores| && cores[i] < |w.cores| && key in w.cores[cores[i]].data
    && forall j :: 0 <= j < i ==> cores[j] < |w.cores| && key !in w.cores[cores[j]].data
  }

  /** Meaning of MergedData: a key is present if some core has it, and the earliest one decides. */
  lemma {:induction false} MergedFirstHolderWins(w: World, cores: seq<nat>, key: string)
    requires forall i :: 0 <= i < |cores| ==> cores[i] < |w.cores|
    ensures key in MergedData(w, cores) <==> exists i :: FirstHolder(w, cores, key, i)
    ensures forall i :: FirstHolder(w, cores, key, i) ==> MergedData(w, cores)[key] == w.cores[cores[i]].data[key]
  {
    if cores != [] {
      var n := |cores| - 1;
      var front := cores[..n];
      MergedFirstHolderWins(w, front, key);
      forall i | FirstHolder(w, front, key, i)
        ensures FirstHolder(w, cores, key, i)
      {}
      forall i | FirstHolder(w, cores, key, i) && i < n
        ensures FirstHolder(w, front, key, i)
      {}
      if key !in MergedData(w, front) {
        NoHolder(w, front, key);
        if key in w.cores[cores[n]].data {
          assert FirstHolder(w, cores, key, n);
        }
      }
    }
  }

  lemma {:induction false} NoHolder(w: World, cores: seq<nat>, key: string)
    requires forall i :: 0 <= i < |cores| ==> cores[i] < |w.cores|
    requires key !in MergedData(w, cores)
    ensures forall i :: 0 <= i < |cores| ==> key !in w.cores[cores[i]].data
  {
    if cores != [] {
      NoHolder(w, cores[..|cores| - 1], key);
    }
  }

  lemma {:induction false} MergedPrefixAgrees(w: World, cores: seq<nat>, i: nat)
    requires forall i :: 0 <= i < |cores| ==> cores[i] < |w.cores|
    requires i <= |cores|
    ensures forall k :: k in MergedData(w, cores[..i]) ==>
              k in MergedData(w, cores) && MergedData(w, cores)[k] == MergedData(w, cores[..i])[k]
    decreases |cores|
  {
    if i < |cores| {
      var n := |cores| - 1;
      MergedPrefixAgrees(w, cores[..n], i);
      assert cores[..n][..i] == cores[..i];
    } else {
      assert cores[..i] == cores;
    }
  }

  /** Merging a core that already took part changes nothing. */
  lemma {:induction false} MergeAgain(w: World, cores: seq<nat>, i: nat)
    requires forall i :: 0 <= i < |cores| ==> cores[i] < |w.cores|
    requires i < |cores|
    ensures MergedData(w, cores[..i + 1]) + MergedData(w, cores) == MergedData(w, cores)
    ensures MergedData(w, cores + [cores[i]]) == MergedData(w, cores)
  {
    MergedPrefixAgrees(w, cores, i + 1);
    assert cores[..i + 1][..i] == cores[..i];
    var d := w.cores[cores[i]].data;
    assert forall k :: k in d ==> k in MergedData(w, cores[..i + 1]);
    var more := cores + [cores[i]];
    assert more[..|more| - 1] == cores;
    assert MergedData(w, more) == d + MergedData(w, cores);
  }

  ghost predicate LastAt(cores: seq<nat>, j: int) {
    0 <= j < |cores| && forall i :: j < i < |cores| ==> cores[i] != cores[j]
  }

  /** The cores the request works on: its own, then the proved ones. */
  ghost function Touched(w: World, s: nat, cookies: seq<Cookie>): (r: seq<nat>)
    requires w.Wired() && s < |w.sessions|
    ensures r != [] && forall i :: 0 <= i < |r| ==> r[i] < |w.cores|
  {
    [s] + Proved(w, cookies)
  }

  /** The table loses exactly the spoiled names. */
  ghost predicate LosesSpoiled(w: World, cookies: seq<Cookie>, u: World)
    requires w.Wired()
  {
    && (forall n :: n in u.table <==> n in w.table && !Spoiled(w, cookies, n))
    && (forall n :: n in u.table ==> u.table[n] == w.table[n])
  }

  /** Only the masked session is re-pointed: to the last core of the list. */
  ghost predicate OnlyRepoints(w: World, s: nat, target: nat, u: World)
    requires w.Wired() && s < |w.sessions|
  {
    && u.Wired()
    && u.config == w.config
    && |u.sessions| == |w.sessions|
    && (forall i :: 0 <= i < |w.sessions| && i != s ==> u.sessions[i] == w.sessions[i])
    && u.sessions[s] == w.sessions[s].(core := target)
  }

  /** Secrets stay; data merge, first holder wins, up to each core's last appearance. */
  ghost predicate MergesData(w: World, touched: seq<nat>, u: World)
    requires forall i :: 0 <= i < |touched| ==> touched[i] < |w.cores|
  {
    && |u.cores| == |w.cores|
    && (forall c :: 0 <= c < |w.cores| ==> u.cores[c].cvalue == w.cores[c].cvalue)
    && (forall j :: LastAt(touched, j) ==> u.cores[touched[j]].data == MergedData(w, touched[..j + 1]))
    && (forall c :: 0 <= c < |w.cores| && c !in touched ==> u.cores[c].data == w.cores[c].data)
  }

  /** The result of the loop, in terms of the store before it. */
  ghost predicate LoopResult(w: World, s: nat, cookies: seq<Cookie>, p: Progress)
    requires w.Wired() && s < |w.sessions|
  {
    var touched := Touched(w, s, cookies);
    && LosesSpoiled(w, cookies, p.world)
    && OnlyRepoints(w, s, touched[|touched| - 1], p.world)
    && MergesData(w, touched, p.world)
    && p.forwarded == Foreign(w.config.name, cookies)
    && p.rejected == Expired(w, cookies)
    && (p.needNew <==> Proved(w, cookies) == [])
  }

  lemma SpoiledSplit(w: World, cookies: seq<Cookie>, n: string)
    requires w.Wired() && cookies != []
    ensures var k := |cookies| - 1;
      Spoiled(w, cookies, n) <==>
        Spoiled(w, cookies[..k], n) || (cookies[k].name == n && Owns(w.config.name, n) && !w.Accepts(cookies[k]))
  {}

  /** One more merge extends the fold by one core. */
  lemma MergeStep(w: World, touched: seq<nat>, u: World, t: nat)
    requires touched != [] && t < |w.cores|
    requires forall i :: 0 <= i < |touched| ==> touched[i] < |w.cores|
    requires MergesData(w, touched, u)
    ensures u.cores[touched[|touched| - 1]].data == MergedData(w, touched)
    ensures u.cores[t].data + MergedData(w, touched) == MergedData(w, touched + [t])
  {
    var more := touched + [t];
    var n := |touched| - 1;
    assert more[..|more| - 1] == touched;
    assert LastAt(touched, n);
    assert touched[..n + 1] == touched;
    if t in touched {
      var j := LastIndex(touched, t);
      MergeAgain(w, touched, j);
    }
  }

  lemma MergedWorld(w: World, touched: seq<nat>, u: World, t: nat, v: World)
    requires touched != [] && t < |w.cores|
    requires forall i :: 0 <= i < |touched| ==> touched[i] < |w.cores|
    requires MergesData(w, touched, u)
    requires v.cores == u.cores[t := u.cores[t].(data := u.cores[t].data + u.cores[touched[|touched| - 1]].data)]
    ensures MergesData(w, touched + [t], v)
  {
    MergeStep(w, touched, u, t);
    var more := touched + [t];
    forall j | LastAt(more, j)
      ensures v.cores[more[j]].data == MergedData(w, more[..j + 1])
    {
      LastAtExtended(touched, t, j);
      if j == |touched| {
        assert more[..j + 1] == more;
      } else {
        assert more[..j + 1] == touched[..j + 1];
      }
    }
  }

  lemma LastIndex(cores: seq<nat>, c: nat) returns (j: nat)
    requires c in cores
    ensures LastAt(cores, j) && cores[j] == c
  {
    j := |cores| - 1;
    while cores[j] != c
      invariant 0 <= j < |cores|
      invariant c in cores[..j + 1]
      invariant forall i :: j < i < |cores| ==> cores[i] != c
      decreases j
    {
      assert cores[..j + 1] == cores[..j] + [cores[j]];
      j := j - 1;
    }
  }

  lemma LastAtExtended(touched: seq<nat>, t: nat, j: int)
    requires LastAt(touched + [t], j)
    ensures j == |touched| || (LastAt(touched, j) && touched[j] != t)
  {
    if j < |touched| {
      assert (touched + [t])[|touched|] == t;
      forall i | j < i < |touched|
        ensures touched[i] != touched[j]
      {
        assert (touched + [t])[i] == touched[i];
      }
    }
  }

  lemma AcceptStep(w: World, s: nat, cookies: seq<Cookie>, p: Progress, c: Cookie)
    requires Inv(w) && Private(w, s)
    requires LoopResult(w, s, cookies, p)
    ensures p.world.Accepts(c) <==> w.Accepts(c) && !Spoiled(w, cookies, c.name)
    ensures p.world.Accepts(c) ==>
              p.world.sessions[p.world.table[c.name]].core == w.sessions[w.table[c.name]].core
  {}

  lemma TableStep(w: World, cookies: seq<Cookie>, c: Cookie, u: World, v: World)
    requires w.Wired() && LosesSpoiled(w, cookies, u)
    requires if Owns(w.config.name, c.name) && !(w.Accepts(c) && !Spoiled(w, cookies, c.name))
             then v.table == u.table - {c.name} else v.table == u.table
    ensures LosesSpoiled(w, cookies + [c], v)
  {
    var all := cookies + [c];
    assert all[..|all| - 1] == cookies;
    forall n
      ensures n in v.table <==> n in w.table && !Spoiled(w, all, n)
    {
      SpoiledSplit(w, all, n);
    }
  }

  /** What one more good cookie adds to the declarative lists. */
  lemma GoodCookieLists(w: World, s: nat, cookies: seq<Cookie>, c: Cookie)
    requires w.Wired() && s < |w.sessions|
    requires w.Accepts(c) && !Spoiled(w, cookies, c.name)
    ensures var all := cookies + [c];
      && Proved(w, all) == Proved(w, cookies) + [w.sessions[w.table[c.name]].core]
      && Touched(w, s, all) == Touched(w, s, cookies) + [w.sessions[w.table[c.name]].core]
      && Foreign(w.config.name, all) == Foreign(w.config.name, cookies)
      && Expired(w, all) == Expired(w, cookies)
  {}

  lemma RepointStep(w: World, s: nat, target: nat, u: World, t: nat)
    requires w.Wired() && s < |w.sessions| && OnlyRepoints(w, s, target, u) && t < |u.cores|
    ensures OnlyRepoints(w, s, t, u.Merge(s, t))
  {}

  lemma LoopStepGood(w: World, s: nat, cookies: seq<Cookie>, c: Cookie, p: Progress)
    requires Inv(w) && Private(w, s)
    requires LoopResult(w, s, cookies, p)
    requires p.world.Accepts(c)
    ensures LoopResult(w, s, cookies + [c], MaskOne(p, s, c))
  {
    AcceptStep(w, s, cookies, p, c);
    GoodCookieLists(w, s, cookies, c);
    var touched := Touched(w, s, cookies);
    var t := w.sessions[w.table[c.name]].core;
    var v := p.world.Merge(s, t);
    TableStep(w, cookies, c, p.world, v);
    MergedWorld(w, touched, p.world, t, v);
    RepointStep(w, s, touched[|touched| - 1], p.world, t);
  }

  /** What any other cookie adds to them. */
  lemma OtherCookieLists(w: World, s: nat, cookies: seq<Cookie>, c: Cookie)
    requires w.Wired() && s < |w.sessions|
    requires !(w.Accepts(c) && !Spoiled(w, cookies, c.name))
    ensures var all, own := cookies + [c], Owns(w.config.name, c.name);
      && Proved(w, all) == Proved(w, cookies)
      && Touched(w, s, all) == Touched(w, s, cookies)
      && Foreign(w.config.name, all) == Foreign(w.config.name, cookies) + (if own then [] else [c])
      && Expired(w, all) == Expired(w, cookies) + (if own then [Expiry(c)] else [])
  {}

  lemma SameHeapMerges(w: World, s: nat, touched: seq<nat>, u: World, v: World)
    requires w.Wired() && s < |w.sessions| && touched != []
    requires forall i :: 0 <= i < |touched| ==> touched[i] < |w.cores|
    requires MergesData(w, touched, u) && OnlyRepoints(w, s, touched[|touched| - 1], u)
    requires v == u.(table := v.table) && forall n :: n in v.table ==> n in u.table && v.table[n] == u.table[n]
    ensures MergesData(w, touched, v) && OnlyRepoints(w, s, touched[|touched| - 1], v)
  {}

  lemma MaskOneOther(p: Progress, s: nat, c: Cookie)
    requires p.world.Wired() && s < |p.world.sessions| && !p.world.Accepts(c)
    ensures var q, own := MaskOne(p, s, c), Owns(p.world.config.name, c.name);
      && q.world == p.world.(table := if own then p.world.table - {c.name} else p.world.table)
      && q.forwarded == p.forwarded + (if own then [] else [c])
      && q.rejected == p.rejected + (if own then [Expiry(c)] else [])
      && q.needNew == p.needNew
  {}

  lemma LoopStepOther(w: World, s: nat, cookies: seq<Cookie>, c: Cookie, p: Progress)
    requires Inv(w) && Private(w, s)
    requires LoopResult(w, s, cookies, p)
    requires !p.world.Accepts(c)
    ensures LoopResult(w, s, cookies + [c], MaskOne(p, s, c))
  {
    AcceptStep(w, s, cookies, p, c);
    OtherCookieLists(w, s, cookies, c);
    MaskOneOther(p, s, c);
    OtherWorldStep(w, s, cookies, c, p);
  }

  lemma OtherWorldStep(w: World, s: nat, cookies: seq<Cookie>, c: Cookie, p: Progress)
    requires Inv(w) && Private(w, s)
    requires LoopResult(w, s, cookies, p)
    requires !p.world.Accepts(c)
    ensures var v := MaskOne(p, s, c).world;
      var touched := Touched(w, s, cookies);
      && LosesSpoiled(w, cookies + [c], v)
      && OnlyRepoints(w, s, touched[|touched| - 1], v)
      && MergesData(w, touched, v)
  {
    AcceptStep(w, s, cookies, p, c);
    MaskOneOther(p, s, c);
    var v := MaskOne(p, s, c).world;
    TableStep(w, cookies, c, p.world, v);
    SameHeapMerges(w, s, Touched(w, s, cookies), p.world, v);
  }

  /** The loop computes exactly the declarative result, for every cookie list. */
  lemma {:induction false} MaskLoopMeaning(w: World, s: nat, cookies: seq<Cookie>)
    requires Inv(w) && Private(w, s)
    ensures LoopResult(w, s, cookies, MaskLoop(w, s, cookies))
  {
    if cookies == [] {
      assert Touched(w, s, cookies) == [s];
      assert [s][..1] == [s];
      assert MergedData(w, [s]) == w.cores[s].data + MergedData(w, [s][..0]);
    } else {
      var front, last := cookies[..|cookies| - 1], cookies[|cookies| - 1];
      assert cookies == front + [last];
      MaskLoopMeaning(w, s, front);
      var p := MaskLoop(w, s, front);
      if p.world.Accepts(last) {
        LoopStepGood(w, s, front, last, p);
      } else {
        LoopStepOther(w, s, front, last, p);
      }
    }
  }

  /** The session ends on the core of the last cookie that proved one. */
  lemma LoopEndsOnLastProved(w: World, s: nat, cookies: seq<Cookie>)
    requires Inv(w) && Private(w, s)
    ensures var p, r := MaskLoop(w, s, cookies), Proved(w, cookies);
      && (p.needNew <==> r == [])
      && p.world.sessions[s].core == if r == [] then s else r[|r| - 1]
  {
    MaskLoopMeaning(w, s, cookies);
  }
}
