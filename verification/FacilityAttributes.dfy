/**
 * The attribute table and the task that fills it (`update_tmnt_attributes`): facilities
 * that have no row yet get default attributes and are located in the subbasins; rows
 * that are there stay as they are.
 */
module FacilityAttributes {

  /** A facility from outside: where it lies, and the rest. */
  datatype Facility = Facility(place: string, rest: string)

  /** The subbasin of each place that lies in one. */
  type Subbasins = map<string, string>

  type Facilities = map<string, Facility>

  function Locate(subbasins: Subbasins, f: Facility): string {
    if f.place in subbasins then subbasins[f.place] else "None"
  }

  /** Where all facilities now lie. */
  function AllLocated(facilities: Facilities, subbasins: Subbasins): map<string, string> {
    map a | a in facilities :: Locate(subbasins, facilities[a])
  }

  /** The facilities without a row. */
  function Unfilled(facilities: Facilities, filled: set<string>): Facilities {
    map a | a in facilities && a !in filled :: facilities[a]
  }

  /** What `tmnt_v` shows of a column: the rows of present facilities. */
  function Shown(column: map<string, string>, facilities: Facilities): map<string, string> {
    map a | a in column && a in facilities :: column[a]
  }

  function Defaults(facilities: Facilities, defaults: Facility -> string): map<string, string> {
    map a | a in facilities :: defaults(facilities[a])
  }

  /** What users entered, with default attributes for the facilities without a row. */
  function WithDefaults(entered: map<string, string>, facilities: Facilities, defaults: Facility -> string)
      : map<string, string>
  {
    entered + Defaults(Unfilled(facilities, entered.Keys), defaults)
  }

  /** The located columns after a fill. */
  function Filled(located: map<string, string>, facilities: Facilities, subbasins: Subbasins): map<string, string> {
    located + AllLocated(Unfilled(facilities, located.Keys), subbasins)
  }

  class AttributeTable {
    var entered: map<string, string>
    var located: map<string, string>

    ghost predicate Valid()
      reads this
    {
      entered.Keys == located.Keys
    }

    constructor ()
      ensures Valid() && located == map[]
    {
      entered, located := map[], map[];
    }

    /** `update_tmnt_attributes`; `logged` says whether the changelog hears of it. */
    method UpdateTmntAttributes(facilities: Facilities, subbasins: Subbasins, defaults: Facility -> string,
                                overwrite: bool) returns (logged: bool)
      requires Valid()
      modifies this
      ensures Valid()
      ensures located == Filled(if overwrite then map[] else old(located), facilities, subbasins)
      ensures entered == WithDefaults(if overwrite then map[] else old(entered), facilities, defaults)
      ensures logged <==> Unfilled(facilities, if overwrite then {} else old(located).Keys) != map[]
    {
      if overwrite {
        entered, located := map[], map[];
      }
      var unfilled := Unfilled(facilities, located.Keys);
      logged := unfilled != map[];
      if logged {
        located := located + AllLocated(unfilled, subbasins);
        entered := entered + Defaults(unfilled, defaults);
      } else {
        assert AllLocated(unfilled, subbasins) == map[] && Defaults(unfilled, defaults) == map[];
        assert located + map[] == located && entered + map[] == entered;
      }
    }
  }

  /** The recorded locations of present facilities are where these now lie. */
  predicate StillHold(located: map<string, string>, facilities: Facilities, subbasins: Subbasins) {
    forall a :: a in facilities && a in located ==> located[a] == Locate(subbasins, facilities[a])
  }

  lemma FilledAt(located: map<string, string>, facilities: Facilities, subbasins: Subbasins, a: string)
    ensures var filled := Filled(located, facilities, subbasins);
            && (a in filled <==> a in located || a in facilities)
            && (a in filled ==> filled[a] == if a in located then located[a] else Locate(subbasins, facilities[a]))
  {
  }

  /**
   * A fill leaves every present facility located where it now lies - exactly when
   * those that had a row before stood in it where they now lie.
   */
  lemma FillIsFullExactlyWhen(located: map<string, string>, facilities: Facilities, subbasins: Subbasins)
    ensures Shown(Filled(located, facilities, subbasins), facilities) == AllLocated(facilities, subbasins) <==>
            StillHold(located, facilities, subbasins)
  {
    var filled, all := Filled(located, facilities, subbasins), AllLocated(facilities, subbasins);
    forall a
      ensures a in filled <==> a in located || a in facilities
      ensures a in filled ==> filled[a] == if a in located then located[a] else all[a]
    {
      FilledAt(located, facilities, subbasins, a);
    }
    if Shown(filled, facilities) == all {
      forall a | a in facilities && a in located
        ensures located[a] == Locate(subbasins, facilities[a])
      {
        assert Shown(filled, facilities)[a] == all[a];
      }
    }
  }

  /** It leaves exactly the rows of a full fill when, besides, no row of a vanished facility was there. */
  lemma FillIsOverwriteExactlyWhen(located: map<string, string>, facilities: Facilities, subbasins: Subbasins)
    ensures Filled(located, facilities, subbasins) == AllLocated(facilities, subbasins) <==>
            located.Keys <= facilities.Keys && StillHold(located, facilities, subbasins)
  {
    var filled, all := Filled(located, facilities, subbasins), AllLocated(facilities, subbasins);
    forall a
      ensures a in filled <==> a in located || a in facilities
      ensures a in filled ==> filled[a] == if a in located then located[a] else all[a]
    {
      FilledAt(located, facilities, subbasins, a);
    }
    if filled == all {
      forall a | a in located
        ensures a in facilities && located[a] == all[a]
      {
        assert a in filled;
      }
    }
  }

  /** There is something to fill exactly when a facility is new. */
  lemma SomethingToFill(facilities: Facilities, filled: set<string>)
    ensures Unfilled(facilities, filled) != map[] <==> exists a :: a in facilities && a !in filled
  {
    var unfilled := Unfilled(facilities, filled);
    if a :| a in facilities && a !in filled {
      assert a in unfilled;
    } else {
      assert unfilled.Keys == {};
    }
  }

  /** Without a new facility there is nothing to fill. */
  lemma NothingToFill(located: map<string, string>, facilities: Facilities, subbasins: Subbasins)
    requires Unfilled(facilities, located.Keys) == map[]
    ensures Filled(located, facilities, subbasins) == located
  {
  }

  /**
   * What a fill makes of one facility: a row that is there keeps both parts; a new
   * facility gets its default attributes and the subbasin of its place, or "None".
   */
  lemma FilledRow(entered: map<string, string>, located: map<string, string>, facilities: Facilities,
                  subbasins: Subbasins, defaults: Facility -> string, a: string)
    requires entered.Keys == located.Keys
    ensures var e, l := WithDefaults(entered, facilities, defaults), Filled(located, facilities, subbasins);
            && (a in e <==> a in l) && (a in l <==> a in located || a in facilities)
            && (a in located ==> e[a] == entered[a] && l[a] == located[a])
            && (a in facilities && a !in located ==>
                  && e[a] == defaults(facilities[a])
                  && (facilities[a].place in subbasins ==> l[a] == subbasins[facilities[a].place])
                  && (facilities[a].place !in subbasins ==> l[a] == "None"))
  {
    FilledAt(located, facilities, subbasins, a);
  }

  /** Overwriting locates every facility, whatever was there; so does the first fill. */
  lemma OverwriteIsFull(facilities: Facilities, subbasins: Subbasins)
    ensures Filled(map[], facilities, subbasins) == AllLocated(facilities, subbasins)
  {
    assert Unfilled(facilities, {}) == facilities;
  }

  /** A second fill changes nothing, whatever has become of the subbasins. */
  lemma FilledTwice(located: map<string, string>, facilities: Facilities, subbasins: Subbasins, later: Subbasins)
    ensures var once := Filled(located, facilities, subbasins);
            Filled(once, facilities, later) == once
  {
    var once := Filled(located, facilities, subbasins);
    assert Unfilled(facilities, once.Keys) == map[];
  }
}
