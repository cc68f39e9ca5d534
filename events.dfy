/** The game event a MESSAGE body describes, and the body parser
    `Event::Event(const std::string&)` (`client/src/event.cpp`). */
module Events {
  import opened Wrappers
  import opened Text
  import opened OrderedMaps

  /** `Event`: the three update maps are `std::map<std::string, std::string>`. */
  datatype Event = Event(
    teamA: string,
    teamB: string,
    name: string,
    time: int,
    gameUpdates: seq<Entry>,
    teamAUpdates: seq<Entry>,
    teamBUpdates: seq<Entry>,
    description: string)

  /** Every event the program holds: genuine maps and an `int` time. */
  predicate WellFormed(ev: Event) {
    Sorted(ev.gameUpdates) && Sorted(ev.teamAUpdates) && Sorted(ev.teamBUpdates) && InInt32(ev.time)
  }

  predicate MapsSorted(ev: Event) {
    Sorted(ev.gameUpdates) && Sorted(ev.teamAUpdates) && Sorted(ev.teamBUpdates)
  }

  /** The field values before any line is read. */
  const Blank: Event := Event("", "", "", 0, [], [], [], "")

  /** The five parser states. */
  datatype Section = NoSection | General | TeamA | TeamB | Desc

  predicate IsUpdateSection(s: Section) {
    s == General || s == TeamA || s == TeamB
  }

  /** The line prefixes that set a field, whatever the section: a name and
      a colon. */
  const TeamAName: string := "team a"
  const TeamBName: string := "team b"
  const EventName: string := "event name"
  const TimeName: string := "time"
  const TeamAField: string := TeamAName + ":"
  const TeamBField: string := TeamBName + ":"
  const NameField: string := EventName + ":"
  const TimeField: string := TimeName + ":"

  /** The exact lines that switch the section. */
  const GeneralHeader: string := "general game updates" + ":"
  const TeamAHeader: string := "team a updates" + ":"
  const TeamBHeader: string := "team b updates" + ":"
  const DescriptionHeader: string := "description" + ":"

  predicate IsFieldLine(line: string) {
    StartsWith(line, TeamAField) || StartsWith(line, TeamBField)
    || StartsWith(line, NameField) || StartsWith(line, TimeField)
  }

  predicate IsSectionHeader(line: string) {
    line == GeneralHeader || line == TeamAHeader || line == TeamBHeader || line == DescriptionHeader
  }

  /** The map an update section writes into. */
  function Updates(ev: Event, s: Section): seq<Entry>
    requires IsUpdateSection(s)
  {
    match s
    case General => ev.gameUpdates
    case TeamA => ev.teamAUpdates
    case TeamB => ev.teamBUpdates
  }

  /** The event with the map of section `s` replaced by `m`. */
  function SetUpdates(ev: Event, s: Section, m: seq<Entry>): (r: Event)
    requires IsUpdateSection(s)
    ensures Updates(r, s) == m
  {
    match s
    case General => ev.(gameUpdates := m)
    case TeamA => ev.(teamAUpdates := m)
    case TeamB => ev.(teamBUpdates := m)
  }

  /** `game_updates[key] = val` (or the team map the section names). */
  function Update(ev: Event, s: Section, key: string, val: string): (r: Event)
    requires IsUpdateSection(s) && MapsSorted(ev)
    ensures MapsSorted(r)
    ensures Updates(r, s) == Put(Updates(ev, s), key, val)
    ensures forall t :: IsUpdateSection(t) && t != s ==> Updates(r, t) == Updates(ev, t)
    ensures r.(gameUpdates := ev.gameUpdates, teamAUpdates := ev.teamAUpdates, teamBUpdates := ev.teamBUpdates) == ev
  {
    match s
    case General => ev.(gameUpdates := Put(ev.gameUpdates, key, val))
    case TeamA => ev.(teamAUpdates := Put(ev.teamAUpdates, key, val))
    case TeamB => ev.(teamBUpdates := Put(ev.teamBUpdates, key, val))
  }

  /** Storing into a map that was just replaced is storing into the
      replacement. */
  lemma UpdateOfSet(ev: Event, s: Section, m: seq<Entry>, key: string, val: string)
    requires IsUpdateSection(s) && MapsSorted(ev) && Sorted(m)
    ensures MapsSorted(SetUpdates(ev, s, m))
    ensures Update(SetUpdates(ev, s, m), s, key, val) == SetUpdates(ev, s, Put(m, key, val))
  {
  }

  /** The parser between two lines: the fields read so far and the section. */
  datatype Parser = Parser(ev: Event, section: Section)

  const Start: Parser := Parser(Blank, NoSection)

  /** One pass of the `getline` loop. `None` stands for the exception
      `std::stoi` throws on a `time:` line without a number. */
  function Step(p: Parser, raw: string): (r: Option<Parser>)
    requires MapsSorted(p.ev)
    ensures r.Some? ==> MapsSorted(r.value.ev)
  {
    var line := StripCr(raw);
    if line == [] then Some(p)
    else if StartsWith(line, TeamAField) then
      Some(Parser(p.ev.(teamA := AfterPrefix(line, |TeamAField|)), NoSection))
    else if StartsWith(line, TeamBField) then
      Some(Parser(p.ev.(teamB := AfterPrefix(line, |TeamBField|)), NoSection))
    else if StartsWith(line, NameField) then
      Some(Parser(p.ev.(name := AfterPrefix(line, |NameField|)), NoSection))
    else if StartsWith(line, TimeField) then
      match StoI(AfterPrefix(line, |TimeField|))
      case None => None
      case Some(t) => Some(Parser(p.ev.(time := t), NoSection))
    else if line == GeneralHeader then Some(p.(section := General))
    else if line == TeamAHeader then Some(p.(section := TeamA))
    else if line == TeamBHeader then Some(p.(section := TeamB))
    else if line == DescriptionHeader then Some(Parser(p.ev.(description := ""), Desc))
    else if p.section == Desc then
      Some(p.(ev := p.ev.(description := if p.ev.description == [] then line else p.ev.description + "\n" + line)))
    else if p.section == NoSection then Some(p)
    else
      var colon := IndexOf(line, ':', 0);
      if colon == |line| then Some(p)
      else Some(p.(ev := Update(p.ev, p.section, line[..colon], AfterPrefix(line, colon + 1))))
  }

  /** The `getline` loop run over `ls` from the state `p`. */
  function Fold(p: Parser, ls: seq<string>): (r: Option<Parser>)
    requires MapsSorted(p.ev)
    ensures r.Some? ==> MapsSorted(r.value.ev)
    decreases |ls|
  {
    if ls == [] then Some(p)
    else
      match Step(p, ls[0])
      case None => None
      case Some(q) => Fold(q, ls[1..])
  }

  /** `Event e(body)`: `None` when the constructor throws. */
  function Parse(body: string): (r: Option<Event>)
    ensures r.Some? ==> MapsSorted(r.value)
  {
    match Fold(Start, Lines(body))
    case None => None
    case Some(p) => Some(p.ev)
  }

  /** Reading two runs of lines is reading the first, then the second from
      where the first left off; an exception ends the loop for good. */
  lemma {:induction false} FoldAppend(p: Parser, a: seq<string>, b: seq<string>)
    requires MapsSorted(p.ev)
    ensures Fold(p, a + b) == match Fold(p, a) case None => None case Some(q) => Fold(q, b)
    decreases |a|
  {
    if a == [] {
      assert a + b == b;
    } else {
      assert (a + b)[0] == a[0];
      assert (a + b)[1..] == a[1..] + b;
      match Step(p, a[0])
      case None =>
      case Some(q) => FoldAppend(q, a[1..], b);
    }
  }

  lemma FoldCons(p: Parser, line: string, rest: seq<string>)
    requires MapsSorted(p.ev)
    ensures Fold(p, [line] + rest) == match Step(p, line) case None => None case Some(q) => Fold(q, rest)
  {
    assert ([line] + rest)[0] == line;
    assert ([line] + rest)[1..] == rest;
  }

  /** An empty body gives every field its default: empty names and
      description, time 0 and empty update maps. */
  lemma ParseEmpty()
    ensures Parse("") == Some(Blank)
  {
  }

  /** A field line is obeyed in every section, before any section content
      is considered: a `time:` line inside an update section sets `time`
      and leaves the maps alone. */
  lemma {:induction false} StepFieldLine(p: Parser, raw: string)
    requires MapsSorted(p.ev)
    requires StartsWith(StripCr(raw), TimeField)
    requires !StartsWith(StripCr(raw), TeamAField) && !StartsWith(StripCr(raw), TeamBField)
    requires !StartsWith(StripCr(raw), NameField)
    ensures Step(p, raw).None? <==> StoI(AfterPrefix(StripCr(raw), |TimeField|)).None?
    ensures Step(p, raw).Some? ==> Step(p, raw) == Some(Parser(p.ev.(time := Step(p, raw).value.ev.time), NoSection))
    ensures Step(p, raw).Some? ==> Some(Step(p, raw).value.ev.time) == StoI(AfterPrefix(StripCr(raw), |TimeField|))
  {
    assert StripCr(raw) != [];
  }

  /** A team-name line sets the name to the rest of the line less one
      leading blank and returns to no section, whatever the section was. */
  lemma StepTeamALine(p: Parser, raw: string)
    requires MapsSorted(p.ev) && StartsWith(StripCr(raw), TeamAField)
    ensures Step(p, raw) == Some(Parser(p.ev.(teamA := AfterPrefix(StripCr(raw), |TeamAField|)), NoSection))
  {
    assert StripCr(raw) != [];
  }

  /** Inside an update section, a line that is neither a field line nor a
      section header stores the text before its first colon as key and the
      text after it, less one leading blank, as value; the other maps and
      fields are left alone. A line without a colon changes nothing. */
  lemma StepUpdateLine(p: Parser, raw: string)
    requires MapsSorted(p.ev) && IsUpdateSection(p.section)
    requires StripCr(raw) != [] && !IsFieldLine(StripCr(raw)) && !IsSectionHeader(StripCr(raw))
    ensures var line := StripCr(raw);
      var colon := IndexOf(line, ':', 0);
      Step(p, raw) == if colon == |line| then Some(p)
        else Some(p.(ev := Update(p.ev, p.section, line[..colon], AfterPrefix(line, colon + 1))))
  {
  }

  /** Inside the description, lines are joined with newlines; blank lines,
      with or without a carriage return, are skipped everywhere. */
  lemma StepDescriptionLine(p: Parser, raw: string)
    requires MapsSorted(p.ev) && p.section == Desc
    requires !IsFieldLine(StripCr(raw)) && !IsSectionHeader(StripCr(raw))
    ensures StripCr(raw) == [] ==> Step(p, raw) == Some(p)
    ensures StripCr(raw) != [] ==> Step(p, raw) == Some(p.(ev := p.ev.(description :=
      if p.ev.description == [] then StripCr(raw) else p.ev.description + "\n" + StripCr(raw))))
  {
  }

  /** `description:` starts the description afresh, so only the last
      description section counts. */
  lemma StepDescriptionHeader(p: Parser)
    requires MapsSorted(p.ev)
    ensures Step(p, DescriptionHeader) == Some(Parser(p.ev.(description := ""), Desc))
  {
    Initials();
    NotFieldLine(DescriptionHeader);
    assert StripCr(DescriptionHeader) == DescriptionHeader;
    assert DescriptionHeader != GeneralHeader && DescriptionHeader != TeamAHeader && DescriptionHeader != TeamBHeader;
  }

  /** The first letters of the field prefixes and section headers. */
  lemma Initials()
    ensures TeamAField[0] == 't' && TeamBField[0] == 't' && NameField[0] == 'e' && TimeField[0] == 't'
    ensures GeneralHeader[0] == 'g' && TeamAHeader[0] == 't' && TeamBHeader[0] == 't'
    ensures DescriptionHeader[0] == 'd' && DescriptionHeader[|DescriptionHeader| - 1] == ':'
  {
  }

  /** A line beginning with neither `t` nor `e` sets no field. */
  lemma NotFieldLine(line: string)
    requires line != [] && line[0] != 't' && line[0] != 'e'
    ensures !IsFieldLine(line)
  {
    Initials();
  }

  /** A line beginning with none of `g`, `t`, `d` switches no section. */
  lemma NotSectionHeader(line: string)
    requires line != [] && line[0] != 'g' && line[0] != 't' && line[0] != 'd'
    ensures !IsSectionHeader(line)
  {
    Initials();
  }

  /** Outside every section, lines that are not field lines or headers,
      such as the `user:` line, are ignored. */
  lemma StepIgnoredLine(p: Parser, raw: string)
    requires MapsSorted(p.ev) && p.section == NoSection
    requires !IsFieldLine(StripCr(raw)) && !IsSectionHeader(StripCr(raw))
    ensures Step(p, raw) == Some(p)
  {
  }

  /** The fold over the lines from `i` on is one step on line `i` and then
      the fold over the lines after it: one pass of the `getline` loop. */
  lemma FoldAt(p: Parser, ls: seq<string>, i: nat)
    requires MapsSorted(p.ev) && i < |ls|
    ensures Fold(p, ls[i..]) == match Step(p, ls[i]) case None => None case Some(q) => Fold(q, ls[i + 1..])
  {
    assert ls[i..] == [ls[i]] + ls[i + 1..];
    FoldCons(p, ls[i], ls[i + 1..]);
  }

  /** One pass of the constructor's loop body on the line `raw`. */
  method ReadLine(p: Parser, raw: string) returns (r: Option<Parser>)
    requires MapsSorted(p.ev)
    ensures r == Step(p, raw)
  {
    var line := raw;
    if |line| > 0 && line[|line| - 1] == '\r' {
      line := line[..|line| - 1];
    }
    if line == [] {
      return Some(p);
    }
    var ev, section := p.ev, p.section;
    if StartsWith(line, TeamAField) {
      return Some(Parser(ev.(teamA := AfterPrefix(line, |TeamAField|)), NoSection));
    }
    if StartsWith(line, TeamBField) {
      return Some(Parser(ev.(teamB := AfterPrefix(line, |TeamBField|)), NoSection));
    }
    if StartsWith(line, NameField) {
      return Some(Parser(ev.(name := AfterPrefix(line, |NameField|)), NoSection));
    }
    if StartsWith(line, TimeField) {
      var t := StoI(AfterPrefix(line, |TimeField|));
      if t.None? {
        return None;
      }
      return Some(Parser(ev.(time := t.value), NoSection));
    }
    if line == GeneralHeader {
      return Some(Parser(ev, General));
    }
    if line == TeamAHeader {
      return Some(Parser(ev, TeamA));
    }
    if line == TeamBHeader {
      return Some(Parser(ev, TeamB));
    }
    if line == DescriptionHeader {
      return Some(Parser(ev.(description := ""), Desc));
    }
    if section == Desc {
      var description := ev.description;
      if description != [] {
        description := description + "\n";
        description := description + line;
      } else {
        description := line;
      }
      return Some(Parser(ev.(description := description), Desc));
    }
    if IsUpdateSection(section) {
      var colon := IndexOf(line, ':', 0);
      if colon < |line| {
        ev := Update(ev, section, line[..colon], AfterPrefix(line, colon + 1));
      }
    }
    return Some(Parser(ev, section));
  }

  /** The `getline` loop over the body's lines, as the constructor runs
      it; `None` when `std::stoi` throws. */
  method ParseEventBody(body: string) returns (r: Option<Event>)
    ensures r == Parse(body)
  {
    var ls := Lines(body);
    var p := Start;
    for i := 0 to |ls|
      invariant MapsSorted(p.ev)
      invariant Fold(Start, ls) == Fold(p, ls[i..])
    {
      FoldAt(p, ls, i);
      var next := ReadLine(p, ls[i]);
      if next.None? {
        return None;
      }
      p := next.value;
    }
    assert ls[|ls|..] == [];
    r := Some(p.ev);
  }
}
