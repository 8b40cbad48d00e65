/**
 Whether pruning depends on the order in which it meets the entries.

 Nearly equal scores are compared by placements only, and that makes the comparison of entries no order. This
 module says exactly when the entries that survive are the same for every order.
 */
module SurvivorOrder {
  import opened Prelude
  import opened PlacementStates
  import opened BeamSearch

  // ----- One key -----

  /** Who stands for the key after one more entry was met. */
  ghost function Contest(win: Option<Entry>, e: Entry, key: DomKey): Option<Entry> {
    if KeyOf(e) != key || (win.Some? && Stays(win.value, e)) then win else Some(e)
  }

  /** Who stands for the key in the end. */
  ghost function Winner(es: seq<Entry>, key: DomKey): Option<Entry> {
    if es == [] then None else Contest(Winner(es[..|es| - 1], key), es[|es| - 1], key)
  }

  ghost predicate OnlyAt(kept: seq<Entry>, key: DomKey, e: Entry, i: int) {
    0 <= i < |kept| && kept[i] == e && forall j | 0 <= j < |kept| && j != i :: KeyOf(kept[j]) != key
  }

  /** Of the entries that are kept, this one and no other has the key. */
  ghost predicate StandsFor(kept: seq<Entry>, key: DomKey, win: Option<Entry>) {
    match win
    case None => forall j | 0 <= j < |kept| :: KeyOf(kept[j]) != key
    case Some(e) => KeyOf(e) == key && exists i :: OnlyAt(kept, key, e, i)
  }

  lemma {:induction false} ChallengeStands(kept: seq<Entry>, e: Entry, key: DomKey, win: Option<Entry>)
    requires StandsFor(kept, key, win)
    ensures StandsFor(Challenged(kept, e), key, Contest(win, e, key))
  {
    var after := Challenged(kept, e);
    var at := FindKey(kept, KeyOf(e));
    hide KeyOf, Stays, FindKey;
    if win.None? {
      if KeyOf(e) == key {
        assert OnlyAt(after, key, e, |kept|);
      }
    } else {
      var i :| OnlyAt(kept, key, win.value, i);
      assert OnlyAt(after, key, after[i], i);
    }
  }

  lemma {:induction false} WinnerStands(es: seq<Entry>, key: DomKey)
    ensures StandsFor(Survivors(es), key, Winner(es, key))
    decreases |es|
  {
    if es != [] {
      SurvivorsStep(es);
      WinnerStands(es[..|es| - 1], key);
      hide StandsFor, Contest, Challenged, Survivors;
      ChallengeStands(Survivors(es[..|es| - 1]), es[|es| - 1], key, Winner(es[..|es| - 1], key));
    }
  }

  /** The survivors are the winners of their keys. */
  lemma {:induction false} SurvivesIffWins(es: seq<Entry>, e: Entry)
    ensures e in Survivors(es) <==> Winner(es, KeyOf(e)) == Some(e)
  {
    WinnerStands(es, KeyOf(e));
    hide Winner, Survivors, KeyOf;
    var win := Winner(es, KeyOf(e));
    if win.Some? {
      var i :| OnlyAt(Survivors(es), KeyOf(e), win.value, i);
    }
  }

  lemma {:induction false} WinnerIsEntry(es: seq<Entry>, key: DomKey)
    ensures Winner(es, key).Some? ==> Winner(es, key).value in es && KeyOf(Winner(es, key).value) == key
    ensures Winner(es, key).None? ==> forall e | e in es :: KeyOf(e) != key
    decreases |es|
  {
    hide KeyOf, Stays;
    if es != [] {
      var init, last := es[..|es| - 1], es[|es| - 1];
      assert es == init + [last];
      WinnerIsEntry(init, key);
    }
  }

  // ----- Champions -----

  /** The entry stays against every other of its key, and no other stays against it. */
  ghost predicate Champion(es: seq<Entry>, d: Entry) {
    d in es && forall x | x in es && x != d && KeyOf(x) == KeyOf(d) :: Stays(d, x) && !Stays(x, d)
  }

  ghost predicate HasChampion(es: seq<Entry>, key: DomKey) {
    exists d :: Champion(es, d) && KeyOf(d) == key
  }

  ghost predicate EachKeyHasChampion(es: seq<Entry>) {
    forall e | e in es :: HasChampion(es, KeyOf(e))
  }

  /** Once a champion is met it stands for its key; nothing before it can keep it out. */
  lemma {:induction false} ChampionWinsPart(es: seq<Entry>, d: Entry, part: seq<Entry>)
    requires Champion(es, d) && forall x | x in part :: x in es
    ensures d in part ==> Winner(part, KeyOf(d)) == Some(d)
    decreases |part|
  {
    hide KeyOf, Stays;
    if part != [] {
      var init, last := part[..|part| - 1], part[|part| - 1];
      assert part == init + [last];
      ChampionWinsPart(es, d, init);
      WinnerIsEntry(init, KeyOf(d));
    }
  }

  lemma {:induction false} ChampionWins(es: seq<Entry>, d: Entry)
    requires Champion(es, d)
    ensures Winner(es, KeyOf(d)) == Some(d)
  {
    hide KeyOf, Winner, Champion;
    assert d in es by { ChampionIsEntry(es, d); }
    ChampionWinsPart(es, d, es);
  }

  lemma {:induction false} ChampionIsEntry(es: seq<Entry>, d: Entry)
    requires Champion(es, d)
    ensures d in es
  {
  }

  // ----- Orders -----

  ghost predicate SameMembers(es: seq<Entry>, es': seq<Entry>) {
    forall e :: e in es <==> e in es'
  }

  /** Every order of the entries has the same survivors. */
  ghost predicate OrderFree(es: seq<Entry>) {
    forall es' | multiset(es') == multiset(es) :: SameMembers(Survivors(es), Survivors(es'))
  }

  ghost predicate NoRepeats(es: seq<Entry>) {
    forall i, j | 0 <= i < j < |es| :: es[i] != es[j]
  }

  lemma {:induction false} Reordered(es: seq<Entry>, es': seq<Entry>)
    requires multiset(es') == multiset(es)
    ensures SameMembers(es, es')
  {
    forall e ensures e in es <==> e in es' {
      assert e in es <==> e in multiset(es);
      assert e in es' <==> e in multiset(es');
    }
  }

  lemma {:induction false} ChampionsElsewhere(es: seq<Entry>, es': seq<Entry>)
    requires SameMembers(es, es') && EachKeyHasChampion(es)
    ensures EachKeyHasChampion(es')
  {
    hide KeyOf, Stays;
    forall e | e in es' ensures HasChampion(es', KeyOf(e)) {
      assert HasChampion(es, KeyOf(e));
      var d :| Champion(es, d) && KeyOf(d) == KeyOf(e);
      assert Champion(es', d);
    }
  }

  /** A survivor is the champion of its key. */
  lemma {:induction false} SurvivorIsChampion(es: seq<Entry>, e: Entry)
    requires EachKeyHasChampion(es)
    ensures e in Survivors(es) <==> Champion(es, e)
  {
    hide KeyOf, Stays, Winner, Survivors;
    SurvivesIffWins(es, e);
    WinnerIsEntry(es, KeyOf(e));
    if e in Survivors(es) {
      assert HasChampion(es, KeyOf(e));
      var d :| Champion(es, d) && KeyOf(d) == KeyOf(e);
      ChampionWins(es, d);
    }
    if Champion(es, e) {
      ChampionWins(es, e);
    }
  }

  lemma {:induction false} ChampionsMakeOrderFree(es: seq<Entry>)
    requires EachKeyHasChampion(es)
    ensures OrderFree(es)
  {
    hide EachKeyHasChampion, Survivors, KeyOf, Stays;
    forall es' | multiset(es') == multiset(es) ensures SameMembers(Survivors(es), Survivors(es')) {
      Reordered(es, es');
      ChampionsElsewhere(es, es');
      forall e ensures e in Survivors(es) <==> e in Survivors(es') {
        SurvivorIsChampion(es, e);
        SurvivorIsChampion(es', e);
        assert Champion(es, e) <==> Champion(es', e);
      }
    }
  }

  // ----- Without a champion -----

  lemma {:induction false} NeverBack(part: seq<Entry>, rest: seq<Entry>, key: DomKey, d: Entry)
    requires Winner(part, key) != Some(d) && d !in rest
    ensures Winner(part + rest, key) != Some(d)
    decreases |rest|
  {
    hide KeyOf, Stays;
    if rest == [] {
      assert part + rest == part;
    } else {
      var init, last := rest[..|rest| - 1], rest[|rest| - 1];
      assert (part + rest)[..|part + rest| - 1] == part + init;
      NeverBack(part, init, key, d);
      assert last in rest;
    }
  }

  lemma {:induction false} WinnerOfTwo(a: Entry, b: Entry)
    requires KeyOf(a) == KeyOf(b)
    ensures Winner([a, b], KeyOf(a)) == if Stays(a, b) then Some(a) else Some(b)
  {
    hide KeyOf, Stays;
    assert [a, b][..1] == [a] && [a][..0] == [];
    assert Winner([a], KeyOf(a)) == Some(a);
  }

  lemma {:induction false} RestAt(es: seq<Entry>, i: nat, j: nat)
    requires i < |es| && j < |es| - 1
    ensures (es[..i] + es[i + 1..])[j] == es[if j < i then j else j + 1]
  {
  }

  lemma {:induction false} RestCounts(es: seq<Entry>, i: nat)
    requires i < |es|
    ensures multiset(es) == multiset{es[i]} + multiset(es[..i] + es[i + 1..])
  {
    assert es == es[..i] + [es[i]] + es[i + 1..];
  }

  lemma {:induction false} RestMembers(es: seq<Entry>, i: nat, x: Entry)
    requires i < |es| && NoRepeats(es)
    ensures x in es[..i] + es[i + 1..] <==> x in es && x != es[i]
  {
    var rest := es[..i] + es[i + 1..];
    if x in rest {
      var j :| 0 <= j < |rest| && rest[j] == x;
      RestAt(es, i, j);
    }
    if x in es && x != es[i] {
      var j :| 0 <= j < |es| && es[j] == x;
      RestAt(es, i, if j < i then j else j - 1);
    }
  }

  lemma {:induction false} RestRepeats(es: seq<Entry>, i: nat)
    requires i < |es| && NoRepeats(es)
    ensures NoRepeats(es[..i] + es[i + 1..])
  {
    var rest := es[..i] + es[i + 1..];
    forall j, k | 0 <= j < k < |rest| ensures rest[j] != rest[k] {
      RestAt(es, i, j);
      RestAt(es, i, k);
    }
  }

  lemma {:induction false} TakeOut(es: seq<Entry>, d: Entry) returns (rest: seq<Entry>)
    requires d in es && NoRepeats(es)
    ensures multiset(es) == multiset{d} + multiset(rest) && NoRepeats(rest)
    ensures forall x :: x in rest <==> x in es && x != d
  {
    var i :| 0 <= i < |es| && es[i] == d;
    RestCounts(es, i);
    RestRepeats(es, i);
    forall x ensures x in es[..i] + es[i + 1..] <==> x in es && x != d {
      RestMembers(es, i, x);
    }
    rest := es[..i] + es[i + 1..];
  }

  /** Two entries first, in either order, and then the others. */
  lemma {:induction false} TwoFirst(es: seq<Entry>, d: Entry, x: Entry) returns (rest: seq<Entry>)
    requires d in es && x in es && d != x && NoRepeats(es)
    ensures d !in rest && multiset([d, x] + rest) == multiset([x, d] + rest) == multiset(es)
  {
    hide NoRepeats;
    var others := TakeOut(es, d);
    rest := TakeOut(others, x);
    assert multiset([d, x] + rest) == multiset{d} + multiset{x} + multiset(rest);
    assert multiset([x, d] + rest) == multiset{d} + multiset{x} + multiset(rest);
  }

  lemma {:induction false} LosesSomewhere(es: seq<Entry>, first: Entry, second: Entry, rest: seq<Entry>, d: Entry)
    requires OrderFree(es) && multiset([first, second] + rest) == multiset(es) && d !in rest
    requires KeyOf(first) == KeyOf(second) == KeyOf(d) && Winner([first, second], KeyOf(d)) != Some(d)
    ensures d !in Survivors(es)
  {
    hide KeyOf, Stays, Winner, Survivors;
    NeverBack([first, second], rest, KeyOf(d), d);
    SurvivesIffWins([first, second] + rest, d);
    assert SameMembers(Survivors(es), Survivors([first, second] + rest));
  }

  lemma {:induction false} OrderFreeWinnerIsChampion(es: seq<Entry>, d: Entry)
    requires OrderFree(es) && NoRepeats(es) && d in es && Winner(es, KeyOf(d)) == Some(d)
    ensures Champion(es, d)
  {
    SurvivesIffWins(es, d);
    hide KeyOf, Stays, Winner, Survivors, OrderFree, NoRepeats;
    forall x | x in es && x != d && KeyOf(x) == KeyOf(d) ensures Stays(d, x) && !Stays(x, d) {
      var rest := TwoFirst(es, d, x);
      WinnerOfTwo(d, x);
      WinnerOfTwo(x, d);
      if !Stays(d, x) {
        LosesSomewhere(es, d, x, rest, d);
      }
      if Stays(x, d) {
        LosesSomewhere(es, x, d, rest, d);
      }
    }
  }

  /**
   Exactly when pruning does not depend on the order of different entries: each key has an entry that stays
   against every other of that key and that no other stays against.
   */
  lemma {:induction false} OrderFreeIffChampions(es: seq<Entry>)
    requires NoRepeats(es)
    ensures OrderFree(es) <==> EachKeyHasChampion(es)
  {
    hide OrderFree, NoRepeats, Champion, KeyOf, Stays, Winner;
    if EachKeyHasChampion(es) {
      ChampionsMakeOrderFree(es);
    }
    if OrderFree(es) {
      forall e | e in es ensures HasChampion(es, KeyOf(e)) {
        WinnerIsEntry(es, KeyOf(e));
        OrderFreeWinnerIsChampion(es, Winner(es, KeyOf(e)).value);
      }
    }
  }

  /** Two entries of one key of which whichever is met first survives: nearly the same score, the worse with the earlier placements. */
  lemma {:induction false} PruningDependsOnOrder(a: Entry) returns (b: Entry)
    requires a.state.cands == [1]
    ensures KeyOf(a) == KeyOf(b) && a != b && Survivors([a, b]) == [a] && Survivors([b, a]) == [b] && !OrderFree([a, b])
  {
    b := Entry(a.score + TIE / 2.0, a.state.(cands := [0]), a.devices);
    assert KeyOf(a) == KeyOf(b);
    assert LexLess(b.state.cands, a.state.cands);
    assert Stays(a, b) && Stays(b, a);
    hide KeyOf, Stays;
    TwoSurvivors(a, b);
    TwoSurvivors(b, a);
    assert multiset([a, b]) == multiset([b, a]);
    assert a in Survivors([a, b]) && a !in Survivors([b, a]);
  }

  lemma {:induction false} TwoSurvivors(a: Entry, b: Entry)
    requires KeyOf(a) == KeyOf(b) && Stays(a, b)
    ensures Survivors([a, b]) == [a]
  {
    hide KeyOf, Stays;
    assert [a, b][..1] == [a] && [a][..0] == [];
    assert Survivors([a]) == [a];
  }
}
