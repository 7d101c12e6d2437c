/** The changes `ProjectMWrapper` makes to its rating database `dbpm`, as
    functions from the database before to the database after. The methods of
    the class are specified by these, and the lemmas below are what the
    functions promise over several calls. */
module PresetStore {
  import opened CText
  import opened WrapperTypes

  /** The record `db[n]` designates: the stored one, or `DBPreset{}` when n
      has none. */
  function Record(db: DBPM, n: string): DBPreset
  {
    if n in db then db[n] else DBPreset(0, 0)
  }

  /** `Record` is the value `db[n]` reads: the entry of n once `operator[]`
      has inserted it. */
  lemma RecordReadsSubscript(db: DBPM, n: string)
    ensures n in Subscript(db, n) && Record(db, n) == Subscript(db, n)[n]
  {
  }

  /** `db[n]` used as an lvalue: `operator[]` inserts `DBPreset{}` for a
      missing name and otherwise leaves the map as it is. */
  function Subscript(db: DBPM, n: string): (r: DBPM)
    ensures r.Keys == db.Keys + {n}
    ensures r[n] == DBPreset(0, 0) <== n !in db
    ensures forall k :: k in db ==> r[k] == db[k]
  {
    if n in db then db else db[n := DBPreset(0, 0)]
  }

  /** The bookkeeping of a preset switch to n: a missing name is inserted
      with the engine's rating and play count 0, then the play count of n is
      incremented. */
  function Switched(db: DBPM, n: string, engineRating: Int32): (r: DBPM)
    requires n in db ==> db[n].playcount < INT32_MAX
    ensures r.Keys == db.Keys + {n}
    ensures forall k :: k in db && k != n ==> r[k] == db[k]
    ensures n !in db ==> r[n] == DBPreset(engineRating, 1)
    ensures n in db ==> r[n].rating == db[n].rating && r[n].playcount == db[n].playcount + 1
  {
    var inserted := if n in db then db else db[n := DBPreset(engineRating, 0)];
    inserted[n := inserted[n].(playcount := inserted[n].playcount + 1)]
  }

  /** `RatingUp`: through `operator[]`, then one step up unless already at 5. */
  function RatingUp(db: DBPM, n: string): (r: DBPM)
    ensures r.Keys == db.Keys + {n}
    ensures forall k :: k in db && k != n ==> r[k] == db[k]
    ensures r[n].playcount == Record(db, n).playcount
    ensures Record(db, n).rating < 5 ==> r[n].rating == Record(db, n).rating + 1
    ensures Record(db, n).rating >= 5 ==> r[n].rating == Record(db, n).rating
    ensures n in db && db[n].rating >= 5 ==> r == db
  {
    var s := Subscript(db, n);
    if s[n].rating < 5 then s[n := s[n].(rating := s[n].rating + 1)] else s
  }

  /** `RatingDown`: through `operator[]`, then one step down unless already at 0. */
  function RatingDown(db: DBPM, n: string): (r: DBPM)
    ensures r.Keys == db.Keys + {n}
    ensures forall k :: k in db && k != n ==> r[k] == db[k]
    ensures r[n].playcount == Record(db, n).playcount
    ensures Record(db, n).rating > 0 ==> r[n].rating == Record(db, n).rating - 1
    ensures Record(db, n).rating <= 0 ==> r[n].rating == Record(db, n).rating
    ensures n in db && db[n].rating <= 0 ==> r == db
  {
    var s := Subscript(db, n);
    if s[n].rating > 0 then s[n := s[n].(rating := s[n].rating - 1)] else s
  }

  /** `SetRating`: a value outside 0..5 is refused before the map is touched;
      otherwise only the rating of n changes (n is inserted if missing). */
  function SetRating(db: DBPM, n: string, rating: Int32): (r: DBPM)
    ensures rating < 0 || rating > 5 ==> r == db
    ensures 0 <= rating <= 5 ==>
              && r.Keys == db.Keys + {n}
              && r[n] == DBPreset(rating, Record(db, n).playcount)
              && forall k :: k in db && k != n ==> r[k] == db[k]
  {
    if rating < 0 || rating > 5 then db
    else
      var s := Subscript(db, n);
      s[n := s[n].(rating := rating)]
  }

  /** `SetPlaycount`: only the play count of n changes (n is inserted if
      missing); there is no range check. */
  function SetPlaycount(db: DBPM, n: string, playcount: Int32): (r: DBPM)
    ensures r.Keys == db.Keys + {n}
    ensures r[n] == DBPreset(Record(db, n).rating, playcount)
    ensures forall k :: k in db && k != n ==> r[k] == db[k]
  {
    var s := Subscript(db, n);
    s[n := s[n].(playcount := playcount)]
  }

  /** Every play count in db can be raised n times without overflow. */
  predicate Headroom(db: DBPM, n: int)
  {
    forall k :: k in db ==> db[k].playcount < INT32_MAX - n
  }

  /** A sequence of preset switches, to the names in order; `ratings(i)` is
      what `projectm_get_preset_rating` reports at the i-th switch, which is
      used only when the name has no record yet. */
  function Plays(db: DBPM, names: seq<string>, ratings: nat -> Int32): (r: DBPM)
    requires |names| < INT32_MAX
    requires Headroom(db, |names|)
    ensures forall k :: k in db ==> k in r
    ensures forall k :: k in r ==> r[k].playcount <= Record(db, k).playcount + |names|
    decreases |names|
  {
    if names == [] then db
    else
      var before := Plays(db, names[..|names| - 1], ratings);
      Switched(before, names[|names| - 1], ratings(|names| - 1))
  }

  /** After a sequence of switches the names with a record are the old ones
      and the ones switched to. */
  lemma {:induction false} PlaysKeys(db: DBPM, names: seq<string>, ratings: nat -> Int32)
    requires |names| < INT32_MAX
    requires Headroom(db, |names|)
    ensures forall k :: k in Plays(db, names, ratings) <==> k in db || k in names
    decreases |names|
  {
    if names != [] {
      var last := |names| - 1;
      assert names == names[..last] + [names[last]];
      PlaysKeys(db, names[..last], ratings);
    }
  }

  /** After a sequence of switches the play count of every record has risen
      by the number of switches to it. */
  lemma {:induction false} PlaysCount(db: DBPM, names: seq<string>, ratings: nat -> Int32)
    requires |names| < INT32_MAX
    requires Headroom(db, |names|)
    ensures forall k :: k in Plays(db, names, ratings) ==>
              Plays(db, names, ratings)[k].playcount == Record(db, k).playcount + multiset(names)[k]
    decreases |names|
  {
    if names != [] {
      var last := |names| - 1;
      var prefix := names[..last];
      var n := names[last];
      PlaysCount(db, prefix, ratings);
      var before := Plays(db, prefix, ratings);
      assert n !in before ==> n !in prefix by {
        PlaysKeys(db, prefix, ratings);
      }
      assert names == prefix + [n];
      SwitchedCount(db, before, prefix, n, ratings(last));
    }
  }

  /** One more switch, to n, adds one to the play count of n alone. */
  lemma SwitchedCount(db: DBPM, before: DBPM, prefix: seq<string>, n: string, rating: Int32)
    requires forall k :: k in db ==> k in before
    requires forall k :: k in before ==> before[k].playcount == Record(db, k).playcount + multiset(prefix)[k]
    requires n !in before ==> n !in prefix
    requires n in before ==> before[n].playcount < INT32_MAX
    ensures forall k :: k in Switched(before, n, rating) ==>
              Switched(before, n, rating)[k].playcount == Record(db, k).playcount + multiset(prefix + [n])[k]
  {
    var after := Switched(before, n, rating);
    assert multiset(prefix + [n]) == multiset(prefix) + multiset{n};
    forall k | k in after
      ensures after[k].playcount == Record(db, k).playcount + multiset(prefix + [n])[k]
    {
      if k != n {
        assert after[k] == before[k];
      } else if n !in before {
        assert multiset(prefix)[n] == 0;
      }
    }
  }

  /** A switch never changes a stored rating. */
  lemma {:induction false} PlaysKeepRating(db: DBPM, names: seq<string>, ratings: nat -> Int32)
    requires |names| < INT32_MAX
    requires Headroom(db, |names|)
    ensures forall k :: k in db ==> Plays(db, names, ratings)[k].rating == db[k].rating
    decreases |names|
  {
    if names != [] {
      var last := |names| - 1;
      PlaysKeepRating(db, names[..last], ratings);
    }
  }

  /** A name that had no record takes the rating the engine reported at the
      first switch to it; the ratings reported at later switches to it are
      not used. */
  lemma {:induction false} PlaysFirstRating(db: DBPM, names: seq<string>, ratings: nat -> Int32)
    requires |names| < INT32_MAX
    requires Headroom(db, |names|)
    ensures forall i :: 0 <= i < |names| && names[i] !in db && names[i] !in names[..i] ==>
              names[i] in Plays(db, names, ratings) && Plays(db, names, ratings)[names[i]].rating == ratings(i)
    decreases |names|
  {
    if names != [] {
      var last := |names| - 1;
      var prefix := names[..last];
      var n := names[last];
      var before := Plays(db, prefix, ratings);
      var after := Plays(db, names, ratings);
      PlaysFirstRating(db, prefix, ratings);
      assert forall k :: k in before <==> k in db || k in prefix by {
        PlaysKeys(db, prefix, ratings);
      }
      assert after == Switched(before, n, ratings(last));
      forall i | 0 <= i < |names| && names[i] !in db && names[i] !in names[..i]
        ensures names[i] in after && after[names[i]].rating == ratings(i)
      {
        var k := names[i];
        if i < last {
          assert prefix[i] == k && prefix[..i] == names[..i];
          assert k in before && before[k].rating == ratings(i);
          if k == n {
            assert after[k].rating == before[k].rating;
          } else {
            assert after[k] == before[k];
          }
        } else {
          assert prefix == names[..i];
          assert k == n && n !in before;
        }
      }
    }
  }

  /** `RatingUp` (true) and `RatingDown` (false) presses, in order. */
  function Adjusted(db: DBPM, n: string, presses: seq<bool>): (r: DBPM)
    ensures r.Keys == if presses == [] then db.Keys else db.Keys + {n}
    decreases |presses|
  {
    if presses == [] then db
    else
      var before := Adjusted(db, n, presses[..|presses| - 1]);
      if presses[|presses| - 1] then RatingUp(before, n) else RatingDown(before, n)
  }

  /** However many presses in whichever direction, a rating that starts in
      0..5 stays in 0..5, the play count stays and no other record changes. */
  lemma {:induction false} AdjustedStaysInRange(db: DBPM, n: string, presses: seq<bool>)
    requires 0 <= Record(db, n).rating <= 5
    ensures 0 <= Record(Adjusted(db, n, presses), n).rating <= 5
    ensures Record(Adjusted(db, n, presses), n).playcount == Record(db, n).playcount
    ensures forall k :: k in db && k != n ==>
              k in Adjusted(db, n, presses) && Adjusted(db, n, presses)[k] == db[k]
    decreases |presses|
  {
    if presses != [] {
      AdjustedStaysInRange(db, n, presses[..|presses| - 1]);
    }
  }

  /** At least as many `RatingDown` presses as the rating brings it to 0,
      and further presses keep it there. */
  lemma {:induction false} DownPressesReachZero(db: DBPM, n: string, presses: seq<bool>)
    requires 0 <= Record(db, n).rating <= |presses|
    requires forall i :: 0 <= i < |presses| ==> !presses[i]
    ensures Record(Adjusted(db, n, presses), n).rating == 0
    decreases |presses|
  {
    if presses != [] {
      var prefix := presses[..|presses| - 1];
      var before := Adjusted(db, n, prefix);
      if Record(db, n).rating <= |prefix| {
        DownPressesReachZero(db, n, prefix);
      } else {
        DownPressesLower(db, n, prefix);
      }
    }
  }

  /** Each `RatingDown` press lowers a positive rating by one. */
  lemma {:induction false} DownPressesLower(db: DBPM, n: string, presses: seq<bool>)
    requires |presses| <= Record(db, n).rating
    requires forall i :: 0 <= i < |presses| ==> !presses[i]
    ensures Record(Adjusted(db, n, presses), n).rating == Record(db, n).rating - |presses|
    decreases |presses|
  {
    if presses != [] {
      DownPressesLower(db, n, presses[..|presses| - 1]);
    }
  }
}
