/** The client's store of game reports (`client/src/GameDB.cpp`, records
    in `client/include/GameDB.h`): per game and per reporting user, the
    team names, the latest statistics and the list of reported events. */
module GameDb {
  import opened Wrappers
  import opened Text
  import opened OrderedMaps

  /** `EventReportLine`. */
  datatype EventReportLine = EventReportLine(time: int, name: string, description: string)

  /** `GameSummaryData`. */
  datatype GameSummaryData = GameSummaryData(
    teamA: string,
    teamB: string,
    generalStats: seq<Entry>,
    teamAStats: seq<Entry>,
    teamBStats: seq<Entry>,
    events: seq<EventReportLine>)

  /** The value `db[game][user]` creates for a pair seen for the first time. */
  const NoSummary: GameSummaryData := GameSummaryData("", "", [], [], [], [])

  predicate StatsSorted(d: GameSummaryData) {
    Sorted(d.generalStats) && Sorted(d.teamAStats) && Sorted(d.teamBStats)
  }

  type Db = map<string, map<string, GameSummaryData>>

  /** Every stored summary holds genuine maps. */
  predicate AllSorted(db: Db) {
    forall g, u :: g in db && u in db[g] ==> StatsSorted(db[g][u])
  }

  /** The games' rows: `db[game]`, empty for a game not seen yet. */
  function Row(db: Db, game: string): map<string, GameSummaryData> {
    if game in db then db[game] else map[]
  }

  /** `db[game][user]`: the summary, or the fresh one `operator[]` makes. */
  function Lookup(db: Db, game: string, user: string): (d: GameSummaryData)
    ensures (game in db && user in db[game]) || d == NoSummary
  {
    if game in db && user in db[game] then db[game][user] else NoSummary
  }

  /** The summary after one more event: the teams are taken only while both
      names are empty, every update overwrites or adds its key, and the
      event is appended. */
  function Recorded(d: GameSummaryData, teamA: string, teamB: string,
                    general: seq<Entry>, aUpd: seq<Entry>, bUpd: seq<Entry>,
                    time: int, eventName: string, desc: string): (r: GameSummaryData)
    requires StatsSorted(d)
    ensures StatsSorted(r)
  {
    var unnamed := d.teamA == [] && d.teamB == [];
    GameSummaryData(
      if unnamed then teamA else d.teamA,
      if unnamed then teamB else d.teamB,
      PutAll(d.generalStats, general),
      PutAll(d.teamAStats, aUpd),
      PutAll(d.teamBStats, bUpd),
      d.events + [EventReportLine(time, eventName, desc)])
  }

  /** Exactly one report line is appended; the earlier ones stay in order. */
  lemma RecordedAppendsOne(d: GameSummaryData, teamA: string, teamB: string,
                           general: seq<Entry>, aUpd: seq<Entry>, bUpd: seq<Entry>,
                           time: int, eventName: string, desc: string)
    requires StatsSorted(d)
    ensures var r := Recorded(d, teamA, teamB, general, aUpd, bUpd, time, eventName, desc);
      && |r.events| == |d.events| + 1
      && r.events[..|d.events|] == d.events
      && r.events[|d.events|] == EventReportLine(time, eventName, desc)
  {
    var r := Recorded(d, teamA, teamB, general, aUpd, bUpd, time, eventName, desc);
    assert r.events[..|d.events|] == d.events;
  }

  /** Once a team name is known, later events never change either name. */
  lemma RecordedKeepsTeams(d: GameSummaryData, teamA: string, teamB: string,
                           general: seq<Entry>, aUpd: seq<Entry>, bUpd: seq<Entry>,
                           time: int, eventName: string, desc: string)
    requires StatsSorted(d)
    ensures var r := Recorded(d, teamA, teamB, general, aUpd, bUpd, time, eventName, desc);
      if d.teamA != [] || d.teamB != [] then r.teamA == d.teamA && r.teamB == d.teamB
      else r.teamA == teamA && r.teamB == teamB
  {
  }

  /** Two events in a row: the second cannot replace team names the first
      supplied. */
  lemma {:induction false} TeamsSetOnce(d: GameSummaryData, teamA: string, teamB: string,
                                        general: seq<Entry>, aUpd: seq<Entry>, bUpd: seq<Entry>,
                                        time: int, eventName: string, desc: string,
                                        teamA2: string, teamB2: string)
    requires StatsSorted(d) && (teamA != [] || teamB != [])
    ensures var r := Recorded(d, teamA, teamB, general, aUpd, bUpd, time, eventName, desc);
      var r2 := Recorded(r, teamA2, teamB2, general, aUpd, bUpd, time, eventName, desc);
      r2.teamA == r.teamA && r2.teamB == r.teamB
  {
    var r := Recorded(d, teamA, teamB, general, aUpd, bUpd, time, eventName, desc);
    RecordedKeepsTeams(d, teamA, teamB, general, aUpd, bUpd, time, eventName, desc);
    assert r.teamA != [] || r.teamB != [];
    RecordedKeepsTeams(r, teamA2, teamB2, general, aUpd, bUpd, time, eventName, desc);
  }

  /** Each statistic named in an update takes the update's value; every
      other statistic keeps the value it had. */
  lemma RecordedStats(d: GameSummaryData, teamA: string, teamB: string,
                      general: seq<Entry>, aUpd: seq<Entry>, bUpd: seq<Entry>,
                      time: int, eventName: string, desc: string, k: string)
    requires StatsSorted(d) && Sorted(general) && Sorted(aUpd) && Sorted(bUpd)
    ensures var r := Recorded(d, teamA, teamB, general, aUpd, bUpd, time, eventName, desc);
      && Get(r.generalStats, k) == (if k in Keys(general) then Get(general, k) else Get(d.generalStats, k))
      && Get(r.teamAStats, k) == (if k in Keys(aUpd) then Get(aUpd, k) else Get(d.teamAStats, k))
      && Get(r.teamBStats, k) == (if k in Keys(bUpd) then Get(bUpd, k) else Get(d.teamBStats, k))
  {
    GetPutAll(d.generalStats, general, k);
    GetPutAll(d.teamAStats, aUpd, k);
    GetPutAll(d.teamBStats, bUpd, k);
  }

  /** `for (const auto& p : upd) stats[p.first] = p.second;` */
  method StoreAll(stats: seq<Entry>, upd: seq<Entry>) returns (r: seq<Entry>)
    requires Sorted(stats)
    ensures r == PutAll(stats, upd)
  {
    r := stats;
    for i := 0 to |upd|
      invariant r == PutAll(stats, upd[..i])
    {
      assert upd[..i + 1][..i] == upd[..i];
      r := Put(r, upd[i].key, upd[i].value);
    }
    assert upd[..|upd|] == upd;
  }

  /** Events in the order `std::sort` with `a.time < b.time` leaves them. */
  predicate ByTime(es: seq<EventReportLine>) {
    forall i, j :: 0 <= i < j < |es| ==> es[i].time <= es[j].time
  }

  /** Inserting one event into a time-ordered list. */
  function InsertByTime(e: EventReportLine, es: seq<EventReportLine>): (r: seq<EventReportLine>)
    requires ByTime(es)
    ensures ByTime(r)
    ensures multiset(r) == multiset(es) + multiset{e}
    decreases |es|
  {
    if es == [] then [e]
    else if e.time <= es[0].time then
      InsertInFront(e, es);
      [e] + es
    else
      var rest := InsertByTime(e, es[1..]);
      InsertLater(e, es, rest);
      [es[0]] + rest
  }

  lemma InsertInFront(e: EventReportLine, es: seq<EventReportLine>)
    requires ByTime(es) && es != [] && e.time <= es[0].time
    ensures ByTime([e] + es)
    ensures multiset([e] + es) == multiset(es) + multiset{e}
  {
    var r := [e] + es;
    forall i, j | 0 <= i < j < |r| ensures r[i].time <= r[j].time {
      if i == 0 {
        assert r[j] == es[j - 1];
      } else {
        assert r[i] == es[i - 1] && r[j] == es[j - 1];
      }
    }
  }

  lemma InsertLater(e: EventReportLine, es: seq<EventReportLine>, rest: seq<EventReportLine>)
    requires ByTime(es) && es != [] && es[0].time < e.time
    requires ByTime(rest) && multiset(rest) == multiset(es[1..]) + multiset{e}
    ensures ByTime([es[0]] + rest)
    ensures multiset([es[0]] + rest) == multiset(es) + multiset{e}
  {
    var r := [es[0]] + rest;
    forall j | 0 <= j < |rest| ensures es[0].time <= rest[j].time {
      assert rest[j] in multiset(rest);
      if rest[j] != e {
        assert rest[j] in multiset(es[1..]);
        var k :| 0 <= k < |es[1..]| && es[1..][k] == rest[j];
        assert es[k + 1] == rest[j];
      }
    }
    forall i, j | 0 <= i < j < |r| ensures r[i].time <= r[j].time {
      if i == 0 {
        assert r[j] == rest[j - 1];
      } else {
        assert r[i] == rest[i - 1] && r[j] == rest[j - 1];
      }
    }
    assert es == [es[0]] + es[1..];
  }

  /** The copy of the events the summary lists: one of the orders
      `std::sort` may produce (it is not stable; equal times keep their
      arrival order here). */
  function SortByTime(es: seq<EventReportLine>): (r: seq<EventReportLine>)
    ensures ByTime(r)
    ensures multiset(r) == multiset(es)
    decreases |es|
  {
    if es == [] then []
    else
      assert es == es[..|es| - 1] + [es[|es| - 1]];
      InsertByTime(es[|es| - 1], SortByTime(es[..|es| - 1]))
  }

  /** `out << e.time << " - " << e.name << ":\n" << e.description << "\n\n"`. */
  function EventText(e: EventReportLine): string {
    IntToString(e.time) + " - " + e.name + ":\n" + e.description + "\n\n"
  }

  /** The event reports one after the other. */
  function EventsText(es: seq<EventReportLine>): string
    decreases |es|
  {
    if es == [] then [] else EventsText(es[..|es| - 1]) + EventText(es[|es| - 1])
  }

  /** The text `writeSummaryToFile` writes for one (game, user) pair. */
  function SummaryText(d: GameSummaryData): string {
    d.teamA + " vs " + d.teamB + "\n" + "Game stats:\n"
    + "General stats:\n" + EntriesText(d.generalStats) + "\n"
    + d.teamA + " stats:\n" + EntriesText(d.teamAStats) + "\n"
    + d.teamB + " stats:\n" + EntriesText(d.teamBStats) + "\n"
    + "Game event reports:\n" + EventsText(SortByTime(d.events))
  }

  /** The summary lists every stored event exactly once, by time. */
  lemma SummaryListsEventsByTime(d: GameSummaryData)
    ensures var listed := SortByTime(d.events);
      && ByTime(listed) && multiset(listed) == multiset(d.events) && |listed| == |d.events|
      && SummaryText(d) == d.teamA + " vs " + d.teamB + "\n" + "Game stats:\n"
        + "General stats:\n" + EntriesText(d.generalStats) + "\n"
        + d.teamA + " stats:\n" + EntriesText(d.teamAStats) + "\n"
        + d.teamB + " stats:\n" + EntriesText(d.teamBStats) + "\n"
        + "Game event reports:\n" + EventsText(listed)
  {
    var listed := SortByTime(d.events);
    assert |multiset(listed)| == |multiset(d.events)|;
  }

  lemma EventsTextStep(text: string, es: seq<EventReportLine>, i: nat)
    requires i < |es|
    ensures text + EventsText(es[..i + 1]) == text + EventsText(es[..i]) + EventText(es[i])
  {
    var a, b := EventsText(es[..i]), EventText(es[i]);
    assert es[..i + 1][..i] == es[..i];
    assert EventsText(es[..i + 1]) == a + b;
    assert text + (a + b) == text + a + b;
  }

  /** Appends the event reports in the given order. */
  method AppendEvents(text: string, es: seq<EventReportLine>) returns (r: string)
    ensures r == text + EventsText(es)
  {
    r := text;
    for i := 0 to |es|
      invariant r == text + EventsText(es[..i])
    {
      EventsTextStep(text, es, i);
      r := r + EventText(es[i]);
    }
    assert es[..|es|] == es;
  }

  /** The body of `addEvent` on the summary `data` refers to. */
  method Record(d: GameSummaryData, teamA: string, teamB: string,
                general: seq<Entry>, aUpd: seq<Entry>, bUpd: seq<Entry>,
                time: int, eventName: string, desc: string) returns (data: GameSummaryData)
    requires StatsSorted(d)
    ensures data == Recorded(d, teamA, teamB, general, aUpd, bUpd, time, eventName, desc)
  {
    data := d;
    if data.teamA == [] && data.teamB == [] {
      data := data.(teamA := teamA, teamB := teamB);
    }
    var generalStats := StoreAll(data.generalStats, general);
    var teamAStats := StoreAll(data.teamAStats, aUpd);
    var teamBStats := StoreAll(data.teamBStats, bUpd);
    data := data.(generalStats := generalStats, teamAStats := teamAStats, teamBStats := teamBStats);
    data := data.(events := data.events + [EventReportLine(time, eventName, desc)]);
  }

  /** Storing one summary leaves every other (game, user) pair as it was. */
  lemma LookupAfterStore(db: Db, game: string, user: string, d: GameSummaryData, g: string, u: string)
    ensures Lookup(db[game := Row(db, game)[user := d]], g, u) == if g == game && u == user then d else Lookup(db, g, u)
  {
  }

  /** `GameDB`: game name to user name to summary. */
  class GameDB {
    var db: Db

    ghost predicate Valid()
      reads this
    {
      AllSorted(db)
    }

    constructor ()
      ensures Valid() && db == map[]
    {
      db := map[];
    }

    /** `addEvent`: updates `db[gameName][user]` in place and nothing else. */
    method AddEvent(gameName: string, user: string, teamA: string, teamB: string,
                    general: seq<Entry>, aUpd: seq<Entry>, bUpd: seq<Entry>,
                    time: int, eventName: string, desc: string)
      requires Valid()
      modifies this
      ensures Valid()
      ensures db == old(db)[gameName := Row(old(db), gameName)[user :=
        Recorded(Lookup(old(db), gameName, user), teamA, teamB, general, aUpd, bUpd, time, eventName, desc)]]
      ensures gameName in db && user in db[gameName]
      ensures forall g, u :: g != gameName || u != user ==> Lookup(db, g, u) == Lookup(old(db), g, u)
    {
      var data := Lookup(db, gameName, user);
      data := Record(data, teamA, teamB, general, aUpd, bUpd, time, eventName, desc);
      forall g, u ensures Lookup(db[gameName := Row(db, gameName)[user := data]], g, u)
        == if g == gameName && u == user then data else Lookup(db, g, u) {
        LookupAfterStore(db, gameName, user, data, g, u);
      }
      db := db[gameName := Row(db, gameName)[user := data]];
    }

    /** `writeSummaryToFile`: `false` when the game or the user under it is
        unknown, or when the output file does not open (`fileOpens` false); the text
        written otherwise. The store is not changed. */
    method WriteSummaryToFile(gameName: string, user: string, fileOpens: bool) returns (ok: bool, text: string)
      requires Valid()
      ensures ok <==> gameName in db && user in db[gameName] && fileOpens
      ensures ok ==> text == SummaryText(db[gameName][user])
      ensures !ok ==> text == ""
    {
      if gameName !in db {
        return false, "";
      }
      if user !in db[gameName] {
        return false, "";
      }
      var data := db[gameName][user];
      if !fileOpens {
        return false, "";
      }
      text := data.teamA + " vs " + data.teamB + "\n";
      text := text + "Game stats:\n";
      text := text + "General stats:\n";
      text := AppendEntries(text, data.generalStats);
      text := text + "\n";
      text := text + data.teamA + " stats:\n";
      text := AppendEntries(text, data.teamAStats);
      text := text + "\n";
      text := text + data.teamB + " stats:\n";
      text := AppendEntries(text, data.teamBStats);
      text := text + "\n";
      text := text + "Game event reports:\n";
      var events := SortByTime(data.events);
      text := AppendEvents(text, events);
      ok := true;
    }
  }
}
