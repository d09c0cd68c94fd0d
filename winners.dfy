/**
 * The overall winners behind the guessing widget: the clothing name of the
 * (item, cloth) group with the most units sold, and of the one with the most
 * revenue, over the whole table; a guess is right when it equals that name.
 */
module Winners {
  import opened Wrappers
  import opened Ranking
  import opened Records

  /**
   * What a group-by over the (item, cloth) columns sees. A row without a
   * clothing name drops out, as the group-by drops missing keys.
   */
  function ByItemCloth(rows: seq<Row>, m: Measure): seq<((string, string), int)>
  {
    if rows == [] then []
    else
      (match rows[0].cloth
       case Some(c) => [((rows[0].item, c), Value(rows[0], m))]
       case None => [])
      + ByItemCloth(rows[1..], m)
  }

  /** Some row carries this item and this clothing name. */
  ghost predicate HasGroup(rows: seq<Row>, item: string, cloth: string)
  {
    exists i :: 0 <= i < |rows| && rows[i].item == item && rows[i].cloth == Some(cloth)
  }

  /** The measure summed over the rows of one (item, cloth) group. */
  function GroupSum(rows: seq<Row>, m: Measure, item: string, cloth: string): int
  {
    if rows == [] then 0
    else
      (if rows[0].item == item && rows[0].cloth == Some(cloth) then Value(rows[0], m) else 0)
      + GroupSum(rows[1..], m, item, cloth)
  }

  lemma {:induction false} ClothGroups(rows: seq<Row>, m: Measure, item: string, cloth: string)
    ensures Occurs(ByItemCloth(rows, m), (item, cloth)) <==> HasGroup(rows, item, cloth)
    ensures SumFor(ByItemCloth(rows, m), (item, cloth)) == GroupSum(rows, m, item, cloth)
  {
    if rows != [] {
      ClothGroups(rows[1..], m, item, cloth);
      var rest := ByItemCloth(rows[1..], m);
      var obs := ByItemCloth(rows, m);
      match rows[0].cloth
      case None =>
        assert obs == rest;
        HasGroupTail(rows, item, cloth);
      case Some(c) =>
        var o := ((rows[0].item, c), Value(rows[0], m));
        assert obs == [o] + rest;
        SumForCons(o, rest, (item, cloth));
        OccursCons(o, rest, (item, cloth));
        HasGroupTail(rows, item, cloth);
    }
  }

  lemma HasGroupTail(rows: seq<Row>, item: string, cloth: string)
    requires rows != []
    ensures HasGroup(rows, item, cloth) <==>
      (rows[0].item == item && rows[0].cloth == Some(cloth)) || HasGroup(rows[1..], item, cloth)
  {
    if HasGroup(rows[1..], item, cloth) {
      var i :| 0 <= i < |rows[1..]| && rows[1..][i].item == item && rows[1..][i].cloth == Some(cloth);
      assert rows[i + 1] == rows[1..][i];
    }
    if HasGroup(rows, item, cloth) && !(rows[0].item == item && rows[0].cloth == Some(cloth)) {
      var i :| 0 <= i < |rows| && rows[i].item == item && rows[i].cloth == Some(cloth);
      assert rows[1..][i - 1] == rows[i];
    }
  }

  /** The group of `item` and `cloth` sold at least as much as every other group. */
  ghost predicate IsTopGroup(rows: seq<Row>, m: Measure, item: string, cloth: string)
  {
    && HasGroup(rows, item, cloth)
    && forall i2, c2 :: HasGroup(rows, i2, c2) ==> GroupSum(rows, m, i2, c2) <= GroupSum(rows, m, item, cloth)
  }

  /** The first group of a one-row ranking beats or ties every group. */
  lemma FirstOfRankingIsTop(rows: seq<Row>, m: Measure, r: seq<Entry<(string, string)>>)
    requires IsTopN(ByItemCloth(rows, m), 1, r) && r != []
    ensures IsTopGroup(rows, m, r[0].key.0, r[0].key.1)
  {
    var obs := ByItemCloth(rows, m);
    ClothGroups(rows, m, r[0].key.0, r[0].key.1);
    forall i2, c2 | HasGroup(rows, i2, c2)
      ensures GroupSum(rows, m, i2, c2) <= GroupSum(rows, m, r[0].key.0, r[0].key.1)
    {
      ClothGroups(rows, m, i2, c2);
      assert (i2, c2) in KeysOf(r) ==> (i2, c2) == r[0].key;
    }
  }

  /**
   * The clothing name on the first row of the (item, cloth) ranking by `m`.
   * None when no row has a clothing name: the grouped table is then empty
   * and looking up its row 0 fails.
   */
  function Best(rows: seq<Row>, m: Measure): Option<string>
  {
    var top := TopN(ByItemCloth(rows, m), 1);
    if top == [] then None else Some(top[0].key.1)
  }

  /**
   * The winner exists exactly when some row has a clothing name, and it is
   * the name of a group that beats or ties every other group.
   */
  lemma BestIsTop(rows: seq<Row>, m: Measure)
    ensures Best(rows, m).None? <==> forall i :: 0 <= i < |rows| ==> rows[i].cloth.None?
    ensures Best(rows, m).Some? ==> exists item :: IsTopGroup(rows, m, item, Best(rows, m).value)
  {
    var obs := ByItemCloth(rows, m);
    var top := TopN(obs, 1);
    TopNCorrect(obs, 1);
    if top != [] {
      FirstOfRankingIsTop(rows, m, top);
      ClothGroups(rows, m, top[0].key.0, top[0].key.1);
      var i :| 0 <= i < |rows| && rows[i].item == top[0].key.0 && rows[i].cloth == Some(top[0].key.1);
    }
    forall i | 0 <= i < |rows| && rows[i].cloth.Some?
      ensures top != []
    {
      assert HasGroup(rows, rows[i].item, rows[i].cloth.value);
      ClothGroups(rows, m, rows[i].item, rows[i].cloth.value);
    }
  }

  /** The group of `item` and `cloth` sold strictly more than every other group. */
  ghost predicate IsUniqueTop(rows: seq<Row>, m: Measure, item: string, cloth: string)
  {
    && HasGroup(rows, item, cloth)
    && forall i2, c2 :: HasGroup(rows, i2, c2) && (i2, c2) != (item, cloth) ==>
         GroupSum(rows, m, i2, c2) < GroupSum(rows, m, item, cloth)
  }

  /**
   * The guessing widget's check of `choice` against the winner by `m`; None
   * when there is no winner and the page fails before the widget is shown.
   * A right guess names a top group, and when one group sold strictly the
   * most, the guess is right exactly when it names that group's cloth.
   */
  function CheckGuess(rows: seq<Row>, m: Measure, choice: string): (ok: Option<bool>)
    ensures ok.None? <==> forall i :: 0 <= i < |rows| ==> rows[i].cloth.None?
    ensures ok == Some(true) ==> exists item :: IsTopGroup(rows, m, item, choice)
    ensures forall item, cloth :: IsUniqueTop(rows, m, item, cloth) ==> ok == Some(choice == cloth)
  {
    BestIsTop(rows, m);
    match Best(rows, m)
    case None => None
    case Some(answer) => Some(choice == answer)
  }

  /**
   * Whenever some row has a clothing name there is exactly one right answer,
   * even when top groups tie: the name of one top group, against which
   * every choice is compared by plain equality.
   */
  lemma OneRightAnswer(rows: seq<Row>, m: Measure)
    requires exists i :: 0 <= i < |rows| && rows[i].cloth.Some?
    ensures exists item, c :: IsTopGroup(rows, m, item, c) && forall choice :: CheckGuess(rows, m, choice) == Some(choice == c)
  {
    BestIsTop(rows, m);
    var c := Best(rows, m).value;
    var item :| IsTopGroup(rows, m, item, c);
  }
}
