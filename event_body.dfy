/** The MESSAGE body the client writes for a game event, `buildEventBody`,
    and the reader of its `user:` line, `getUserFromBody`
    (`client/src/StompClient.cpp`), with the proof that the body parser of
    module `Events` reads back the event that was written. */
module EventBodies {
  import opened Wrappers
  import opened Text
  import opened OrderedMaps
  import opened Events

  /** The line prefix naming the reporting user; the body parser ignores it. */
  const UserField: string := "user:"

  /** The first six lines `buildEventBody` writes: the user, the two team
      names, the event name, the time and the general-updates header. */
  function HeadLines(ev: Event, user: string): seq<string> {
    [UserField + " " + user, TeamAField + " " + ev.teamA, TeamBField + " " + ev.teamB,
     NameField + " " + ev.name, TimeField + " " + IntToString(ev.time), GeneralHeader]
  }

  /** Every line `buildEventBody` writes, in order: the maps are printed in
      key order, one `key: value` line per entry. */
  function EventLines(ev: Event, user: string): seq<string> {
    LinesBeforeDescription(ev, user) + [ev.description]
  }

  /** The lines up to and including the `description:` header. */
  function LinesBeforeDescription(ev: Event, user: string): seq<string> {
    HeadLines(ev, user) + EntryLines(ev.gameUpdates) + [TeamAHeader] + EntryLines(ev.teamAUpdates)
    + [TeamBHeader] + EntryLines(ev.teamBUpdates) + [DescriptionHeader]
  }

  /** The text `buildEventBody(ev, user)` returns: each line followed by a
      newline. */
  function EventBodyText(ev: Event, user: string): string {
    Unlines(EventLines(ev, user))
  }

  /** `buildEventBody`: streams the lines into an `ostringstream`. */
  method BuildEventBody(ev: Event, user: string) returns (out: string)
    ensures out == EventBodyText(ev, user)
  {
    ghost var written: seq<string> := [];
    out := "";
    var line := UserField + " " + user;
    UnlinesSnoc(written, line);
    out, written := out + line + "\n", written + [line];
    line := TeamAField + " " + ev.teamA;
    UnlinesSnoc(written, line);
    out, written := out + line + "\n", written + [line];
    line := TeamBField + " " + ev.teamB;
    UnlinesSnoc(written, line);
    out, written := out + line + "\n", written + [line];
    line := NameField + " " + ev.name;
    UnlinesSnoc(written, line);
    out, written := out + line + "\n", written + [line];
    line := TimeField + " " + IntToString(ev.time);
    UnlinesSnoc(written, line);
    out, written := out + line + "\n", written + [line];
    UnlinesSnoc(written, GeneralHeader);
    out, written := out + GeneralHeader + "\n", written + [GeneralHeader];
    assert written == HeadLines(ev, user);
    UnlinesAppend(written, EntryLines(ev.gameUpdates));
    out := AppendEntries(out, ev.gameUpdates);
    written := written + EntryLines(ev.gameUpdates);
    UnlinesSnoc(written, TeamAHeader);
    out, written := out + TeamAHeader + "\n", written + [TeamAHeader];
    UnlinesAppend(written, EntryLines(ev.teamAUpdates));
    out := AppendEntries(out, ev.teamAUpdates);
    written := written + EntryLines(ev.teamAUpdates);
    UnlinesSnoc(written, TeamBHeader);
    out, written := out + TeamBHeader + "\n", written + [TeamBHeader];
    UnlinesAppend(written, EntryLines(ev.teamBUpdates));
    out := AppendEntries(out, ev.teamBUpdates);
    written := written + EntryLines(ev.teamBUpdates);
    UnlinesSnoc(written, DescriptionHeader);
    out, written := out + DescriptionHeader + "\n", written + [DescriptionHeader];
    UnlinesSnoc(written, ev.description);
    out, written := out + ev.description + "\n", written + [ev.description];
    assert written == EventLines(ev, user);
  }

  /** A line that names the user once its carriage return is dropped. */
  predicate IsUserLine(raw: string) {
    StartsWith(StripCr(raw), UserField)
  }

  /** The user the first `user:` line of `ls` names (less one leading
      blank), or `fallback` when no line does. */
  function UserFromLines(ls: seq<string>, fallback: string): string
    decreases |ls|
  {
    if ls == [] then fallback
    else if IsUserLine(ls[0]) then AfterPrefix(StripCr(ls[0]), |UserField|)
    else UserFromLines(ls[1..], fallback)
  }

  /** What `getUserFromBody(body, activeUser)` returns. */
  function UserFromBody(body: string, activeUser: string): string {
    UserFromLines(Lines(body), activeUser)
  }

  /** The first `user:` line decides; later ones are never read. */
  lemma {:induction false} UserFromFirstUserLine(ls: seq<string>, fallback: string, i: nat)
    requires i < |ls| && IsUserLine(ls[i])
    requires forall k :: 0 <= k < i ==> !IsUserLine(ls[k])
    ensures UserFromLines(ls, fallback) == AfterPrefix(StripCr(ls[i]), |UserField|)
    decreases i
  {
    if i > 0 {
      assert !IsUserLine(ls[0]);
      UserFromFirstUserLine(ls[1..], fallback, i - 1);
    }
  }

  /** Without a `user:` line the active user is returned. */
  lemma {:induction false} UserFallback(ls: seq<string>, fallback: string)
    requires forall k :: 0 <= k < |ls| ==> !IsUserLine(ls[k])
    ensures UserFromLines(ls, fallback) == fallback
    decreases |ls|
  {
    if ls != [] {
      assert !IsUserLine(ls[0]);
      UserFallback(ls[1..], fallback);
    }
  }

  /** `getUserFromBody`: the `getline` loop, returning at the first
      `user:` line. */
  method GetUserFromBody(body: string, activeUser: string) returns (u: string)
    ensures u == UserFromBody(body, activeUser)
  {
    var ls := Lines(body);
    for i := 0 to |ls|
      invariant UserFromLines(ls, activeUser) == UserFromLines(ls[i..], activeUser)
    {
      assert ls[i..][0] == ls[i] && ls[i..][1..] == ls[i + 1..];
      var line := ls[i];
      if |line| > 0 && line[|line| - 1] == '\r' {
        line := line[..|line| - 1];
      }
      if |line| >= |UserField| && line[..|UserField|] == UserField {
        u := line[|UserField|..];
        if u != [] && u[0] == ' ' {
          u := u[1..];
        }
        return;
      }
    }
    assert ls[|ls|..] == [];
    u := activeUser;
  }

  /** The receiver reads back the user the body was written for, whatever
      the event, when the name is a single line without a final carriage
      return. */
  lemma UserOfEventBody(ev: Event, user: string, fallback: string)
    requires OneLine(user)
    ensures UserFromBody(EventBodyText(ev, user), fallback) == user
  {
    var line := UserField + " " + user;
    var rest := BodyAfterUserLine(ev, user);
    LinesCons(line, rest);
    assert StripCr(line) == line;
    AfterPrefixOf(UserField, user);
  }

  /** The body opens with the `user:` line. */
  lemma BodyAfterUserLine(ev: Event, user: string) returns (rest: string)
    ensures EventBodyText(ev, user) == UserField + " " + user + "\n" + rest
  {
    var ls := EventLines(ev, user);
    assert ls[0] == UserField + " " + user;
    rest := Unlines(ls[1..]);
  }

  /** A map entry the body format carries unchanged: the key holds no
      colon or newline and is none of the field names, the value is a
      single line. */
  predicate PlainEntry(e: Entry) {
    && ':' !in e.key && '\n' !in e.key && OneLine(e.value)
    && e.key != TeamAName && e.key != TeamBName && e.key != EventName && e.key != TimeName
  }

  predicate PlainEntries(m: seq<Entry>) {
    forall i :: 0 <= i < |m| ==> PlainEntry(m[i])
  }

  /** A description line the parser takes back as it is: not empty, no
      final carriage return, neither a field line nor a section header. */
  predicate PlainDescriptionLine(line: string) {
    line != [] && OneLine(line) && !IsFieldLine(line) && !IsSectionHeader(line)
  }

  /** A description the parser reads back: empty, or lines that are all
      plain (so none of them is empty). */
  predicate PlainDescription(d: string) {
    d == [] || PlainDescriptionLines(Lines(d + "\n"))
  }

  predicate PlainDescriptionLines(ls: seq<string>) {
    forall k :: 0 <= k < |ls| ==> PlainDescriptionLine(ls[k])
  }

  /** The events whose body the parser reads back: every name a single
      line, every entry plain, and a plain description. */
  predicate Writable(ev: Event) {
    && OneLine(ev.teamA) && OneLine(ev.teamB) && OneLine(ev.name)
    && PlainEntries(ev.gameUpdates) && PlainEntries(ev.teamAUpdates) && PlainEntries(ev.teamBUpdates)
    && PlainDescription(ev.description)
  }

  /** The names behind the prefixes and headers hold no colon. */
  lemma NamesWithoutColon()
    ensures ':' !in TeamAName && ':' !in TeamBName && ':' !in EventName && ':' !in TimeName
    ensures ':' !in "general game updates" && ':' !in "team a updates"
    ensures ':' !in "team b updates" && ':' !in "description"
  {
  }

  /** An entry line starts with `name:` only when its key is `name`. */
  lemma EntryLinePrefix(k: string, v: string, name: string)
    requires ':' !in k && ':' !in name && k != name
    ensures !StartsWith(k + ": " + v, name + ":")
  {
    var line, p := k + ": " + v, name + ":";
    if |k| < |name| {
      assert line[|k|] == ':' && p[|k|] == name[|k|];
      DiffersAt(line, p, |k|);
    } else if |k| > |name| {
      assert line[|name|] == k[|name|] && p[|name|] == ':';
      DiffersAt(line, p, |name|);
    } else {
      var i :| 0 <= i < |k| && k[i] != name[i];
      assert line[i] == k[i] && p[i] == name[i];
      DiffersAt(line, p, i);
    }
  }

  /** An entry line is no section header: a header holds its only colon
      at the end, an entry line has a blank after its first colon. */
  lemma EntryLineNotHeader(k: string, v: string, name: string)
    requires ':' !in name
    ensures k + ": " + v != name + ":"
  {
    if |k| < |name| {
      assert (k + ": " + v)[|k|] == ':' && (name + ":")[|k|] == name[|k|];
    }
  }

  /** An entry line sets no field and switches no section. */
  lemma EntryLineIsContent(e: Entry)
    requires PlainEntry(e)
    ensures StripCr(EntryLine(e)) == EntryLine(e) != []
    ensures !IsFieldLine(EntryLine(e)) && !IsSectionHeader(EntryLine(e))
  {
    var k, v := e.key, e.value;
    NamesWithoutColon();
    EntryLinePrefix(k, v, TeamAName);
    EntryLinePrefix(k, v, TeamBName);
    EntryLinePrefix(k, v, EventName);
    EntryLinePrefix(k, v, TimeName);
    EntryLineNotHeader(k, v, "general game updates");
    EntryLineNotHeader(k, v, "team a updates");
    EntryLineNotHeader(k, v, "team b updates");
    EntryLineNotHeader(k, v, "description");
  }

  /** An entry line splits at its first colon into the key and, less the
      blank, the value. */
  lemma EntryLineSplit(e: Entry)
    requires ':' !in e.key
    ensures IndexOf(EntryLine(e), ':', 0) == |e.key| < |EntryLine(e)|
    ensures EntryLine(e)[..|e.key|] == e.key
    ensures AfterPrefix(EntryLine(e), |e.key| + 1) == e.value
  {
    var k, v := e.key, e.value;
    var line := EntryLine(e);
    assert line == k + [':'] + (" " + v);
    IndexOfAfter(k, ':', " " + v);
    assert line == (k + ":") + " " + v;
    AfterPrefixOf(k + ":", v);
  }

  /** An entry line inside an update section stores that entry into the
      section's map. */
  lemma StepEntry(p: Parser, e: Entry)
    requires MapsSorted(p.ev) && IsUpdateSection(p.section) && PlainEntry(e)
    ensures Step(p, EntryLine(e)) == Some(p.(ev := Update(p.ev, p.section, e.key, e.value)))
  {
    EntryLineIsContent(e);
    EntryLineSplit(e);
    StepUpdateLine(p, EntryLine(e));
  }

  /** The entry lines of a map, read inside an update section, store
      every entry in order into the section's map. */
  lemma {:induction false} FoldEntries(p: Parser, m: seq<Entry>)
    requires MapsSorted(p.ev) && IsUpdateSection(p.section) && PlainEntries(m)
    ensures Fold(p, EntryLines(m)) == Some(p.(ev := SetUpdates(p.ev, p.section, PutAll(Updates(p.ev, p.section), m))))
    decreases |m|
  {
    var s, u := p.section, Updates(p.ev, p.section);
    if m == [] {
      assert SetUpdates(p.ev, s, u) == p.ev;
    } else {
      var init, last := m[..|m| - 1], m[|m| - 1];
      assert PlainEntries(init);
      FoldEntries(p, init);
      var before := PutAll(u, init);
      UpdateOfSet(p.ev, s, before, last.key, last.value);
      var q := p.(ev := SetUpdates(p.ev, s, before));
      assert EntryLines(m) == EntryLines(init) + [EntryLine(last)];
      FoldAppend(p, EntryLines(init), [EntryLine(last)]);
      StepEntry(q, last);
      FoldCons(q, EntryLine(last), []);
      assert [EntryLine(last)] + [] == [EntryLine(last)];
    }
  }

  /** The letters at which the prefixes and headers first differ. */
  lemma Letters()
    ensures |TeamAField| == 7 && |TeamBField| == 7 && |NameField| == 11 && |TimeField| == 5
    ensures TeamAField[0] == 't' && TeamAField[1] == 'e' && TeamAField[5] == 'a' && TeamAField[6] == ':'
    ensures TeamBField[0] == 't' && TeamBField[1] == 'e' && TeamBField[5] == 'b' && TeamBField[6] == ':'
    ensures NameField[0] == 'e' && TimeField[0] == 't' && TimeField[1] == 'i'
    ensures GeneralHeader[0] == 'g' && GeneralHeader[|GeneralHeader| - 1] == ':'
    ensures TeamAHeader[0] == 't' && TeamAHeader[1] == 'e' && TeamAHeader[5] == 'a' && TeamAHeader[6] == ' '
    ensures TeamBHeader[0] == 't' && TeamBHeader[1] == 'e' && TeamBHeader[5] == 'b' && TeamBHeader[6] == ' '
    ensures TeamAHeader[|TeamAHeader| - 1] == ':' && TeamBHeader[|TeamBHeader| - 1] == ':'
    ensures UserField[0] == 'u'
  {
  }

  /** The `user:` line is ignored outside every section. */
  lemma StepUserLine(p: Parser, user: string)
    requires MapsSorted(p.ev) && p.section == NoSection
    ensures Step(p, UserField + " " + user) == Some(p)
  {
    var line := StripCr(UserField + " " + user);
    Letters();
    assert line[0] == 'u';
    NotFieldLine(line);
    NotSectionHeader(line);
    StepIgnoredLine(p, UserField + " " + user);
  }

  lemma StepTeamAOf(p: Parser, a: string)
    requires MapsSorted(p.ev) && OneLine(a)
    ensures Step(p, TeamAField + " " + a) == Some(Parser(p.ev.(teamA := a), NoSection))
  {
    var line := TeamAField + " " + a;
    assert StripCr(line) == line;
    AfterPrefixOf(TeamAField, a);
    StepTeamALine(p, line);
  }

  lemma StepTeamBLine(p: Parser, b: string)
    requires MapsSorted(p.ev) && OneLine(b)
    ensures Step(p, TeamBField + " " + b) == Some(Parser(p.ev.(teamB := b), NoSection))
  {
    var line := TeamBField + " " + b;
    Letters();
    assert StripCr(line) == line && line[5] == 'b';
    DiffersAt(line, TeamAField, 5);
    AfterPrefixOf(TeamBField, b);
  }

  lemma StepNameLine(p: Parser, n: string)
    requires MapsSorted(p.ev) && OneLine(n)
    ensures Step(p, NameField + " " + n) == Some(Parser(p.ev.(name := n), NoSection))
  {
    var line := NameField + " " + n;
    Letters();
    assert StripCr(line) == line && line[0] == 'e';
    DiffersAt(line, TeamAField, 0);
    DiffersAt(line, TeamBField, 0);
    AfterPrefixOf(NameField, n);
  }

  /** The time is written in decimal and read back by `std::stoi`. */
  lemma StepTimeLine(p: Parser, t: int)
    requires MapsSorted(p.ev) && InInt32(t)
    ensures Step(p, TimeField + " " + IntToString(t)) == Some(Parser(p.ev.(time := t), NoSection))
  {
    var digits := IntToString(t);
    var line := TimeField + " " + digits;
    Letters();
    IntToStringEndsInDigit(t);
    assert StripCr(line) == line && line[0] == 't' && line[1] == 'i';
    DiffersAt(line, TeamAField, 1);
    DiffersAt(line, TeamBField, 1);
    DiffersAt(line, NameField, 0);
    AfterPrefixOf(TimeField, digits);
    StoIOfIntToString(t);
    StepFieldLine(p, line);
  }

  lemma StepGeneralHeader(p: Parser)
    requires MapsSorted(p.ev)
    ensures Step(p, GeneralHeader) == Some(p.(section := General))
  {
    Letters();
    assert StripCr(GeneralHeader) == GeneralHeader;
    NotFieldLine(GeneralHeader);
  }

  lemma StepTeamAHeader(p: Parser)
    requires MapsSorted(p.ev)
    ensures Step(p, TeamAHeader) == Some(p.(section := TeamA))
  {
    var line := TeamAHeader;
    Letters();
    assert StripCr(line) == line;
    DiffersAt(line, TeamAField, 6);
    DiffersAt(line, TeamBField, 5);
    DiffersAt(line, NameField, 0);
    DiffersAt(line, TimeField, 1);
    assert line != GeneralHeader by { assert line[0] != GeneralHeader[0]; }
  }

  lemma StepTeamBHeader(p: Parser)
    requires MapsSorted(p.ev)
    ensures Step(p, TeamBHeader) == Some(p.(section := TeamB))
  {
    var line := TeamBHeader;
    Letters();
    assert StripCr(line) == line;
    DiffersAt(line, TeamAField, 5);
    DiffersAt(line, TeamBField, 6);
    DiffersAt(line, NameField, 0);
    DiffersAt(line, TimeField, 1);
    assert line != GeneralHeader by { assert line[0] != GeneralHeader[0]; }
    assert line != TeamAHeader by { assert line[5] != TeamAHeader[5]; }
  }

  /** A line that moves the parser from `p` to `q`. */
  lemma FoldThrough(p: Parser, ls: seq<string>, i: nat, q: Parser)
    requires MapsSorted(p.ev) && i < |ls| && Step(p, ls[i]) == Some(q)
    ensures Fold(p, ls[i..]) == Fold(q, ls[i + 1..])
  {
    FoldAt(p, ls, i);
  }

  /** The event as it stands after the head lines: names and time read,
      maps still empty. */
  function HeadEvent(ev: Event): Event {
    Blank.(teamA := ev.teamA, teamB := ev.teamB, name := ev.name, time := ev.time)
  }

  /** The user and team lines set the team names. */
  lemma FoldTeams(ev: Event, user: string)
    requires OneLine(ev.teamA) && OneLine(ev.teamB)
    ensures Fold(Start, HeadLines(ev, user))
      == Fold(Parser(Blank.(teamA := ev.teamA, teamB := ev.teamB), NoSection), HeadLines(ev, user)[3..])
  {
    var ls := HeadLines(ev, user);
    var p2 := Parser(Blank.(teamA := ev.teamA), NoSection);
    StepUserLine(Start, user);
    FoldThrough(Start, ls, 0, Start);
    StepTeamAOf(Start, ev.teamA);
    FoldThrough(Start, ls, 1, p2);
    StepTeamBLine(p2, ev.teamB);
    FoldThrough(p2, ls, 2, Parser(Blank.(teamA := ev.teamA, teamB := ev.teamB), NoSection));
    assert ls[0..] == ls;
  }

  /** The head lines set the names and the time and open the general
      updates. */
  lemma FoldHead(ev: Event, user: string)
    requires OneLine(ev.teamA) && OneLine(ev.teamB) && OneLine(ev.name) && InInt32(ev.time)
    ensures Fold(Start, HeadLines(ev, user)) == Some(Parser(HeadEvent(ev), General))
  {
    var ls := HeadLines(ev, user);
    var p3 := Parser(Blank.(teamA := ev.teamA, teamB := ev.teamB), NoSection);
    var p4 := Parser(p3.ev.(name := ev.name), NoSection);
    var p5 := Parser(p4.ev.(time := ev.time), NoSection);
    FoldTeams(ev, user);
    StepNameLine(p3, ev.name);
    FoldThrough(p3, ls, 3, p4);
    StepTimeLine(p4, ev.time);
    FoldThrough(p4, ls, 4, p5);
    StepGeneralHeader(p5);
    FoldThrough(p5, ls, 5, p5.(section := General));
    assert ls[6..] == [];
  }
  /** Reading a run of lines after another. */
  lemma FoldChain(a: seq<string>, b: seq<string>, q: Parser, r: Parser)
    requires Fold(Start, a) == Some(q) && Fold(q, b) == Some(r)
    ensures Fold(Start, a + b) == Some(r)
  {
    FoldAppend(Start, a, b);
  }

  lemma FoldOne(p: Parser, line: string, q: Parser)
    requires MapsSorted(p.ev) && Step(p, line) == Some(q)
    ensures Fold(p, [line]) == Some(q)
  {
    FoldCons(p, line, []);
    assert [line] + [] == [line];
  }

  /** The description header and the lines of the description set the
      description, empty or not. */
  lemma FoldDescription(p: Parser, d: string)
    requires MapsSorted(p.ev) && PlainDescription(d)
    ensures Fold(p, [DescriptionHeader] + Lines(d + "\n")) == Some(Parser(p.ev.(description := d), Desc))
  {
    var q := Parser(p.ev.(description := ""), Desc);
    StepDescriptionHeader(p);
    FoldCons(p, DescriptionHeader, Lines(d + "\n"));
    if d == [] {
      LinesCons("", "");
      assert Lines(d + "\n") == [""];
      StepDescriptionLine(q, "");
      FoldOne(q, "", q);
    } else {
      FoldDescriptionLines(q, d);
    }
  }

  /** The description so far with one more piece of text joined on. */
  function JoinedDescription(sofar: string, more: string): string {
    if sofar == [] then more else sofar + "\n" + more
  }

  /** Inside the description section, the lines of `d` join `d` onto the
      description read so far. */
  lemma {:induction false} FoldDescriptionLines(p: Parser, d: string)
    requires MapsSorted(p.ev) && p.section == Desc && PlainDescriptionLines(Lines(d + "\n"))
    ensures Fold(p, Lines(d + "\n")) == Some(p.(ev := p.ev.(description := JoinedDescription(p.ev.description, d))))
    decreases |d|
  {
    var i := IndexOf(d, '\n', 0);
    if i == |d| {
      FoldLastDescriptionLine(p, d);
    } else {
      var line, rest := d[..i], d[i + 1..];
      SplitDescription(d, i, line, rest);
      var q := p.(ev := p.ev.(description := JoinedDescription(p.ev.description, line)));
      FoldDescriptionLine(p, line, Lines(rest + "\n"));
      FoldDescriptionLines(q, rest);
      JoinedAfterLine(p.ev.description, line, rest);
    }
  }

  /** Joining a non-empty line and then the rest is joining both at once. */
  lemma JoinedAfterLine(sofar: string, line: string, rest: string)
    requires line != []
    ensures JoinedDescription(JoinedDescription(sofar, line), rest) == JoinedDescription(sofar, line + "\n" + rest)
  {
  }

  /** A description without a newline is one line. */
  lemma FoldLastDescriptionLine(p: Parser, d: string)
    requires MapsSorted(p.ev) && p.section == Desc && '\n' !in d && PlainDescriptionLines(Lines(d + "\n"))
    ensures Fold(p, Lines(d + "\n")) == Some(p.(ev := p.ev.(description := JoinedDescription(p.ev.description, d))))
  {
    LinesCons(d, "");
    assert d + "\n" + "" == d + "\n";
    assert Lines(d + "\n") == [d];
    assert Lines(d + "\n")[0] == d;
    assert StripCr(d) == d;
    StepDescriptionLine(p, d);
    FoldOne(p, d, p.(ev := p.ev.(description := JoinedDescription(p.ev.description, d))));
  }

  /** A description with a newline at `i` reads as its first line, then
      the lines of the rest. */
  lemma SplitDescription(d: string, i: nat, line: string, rest: string)
    requires i < |d| && d[i] == '\n' && (forall j :: 0 <= j < i ==> d[j] != '\n')
    requires line == d[..i] && rest == d[i + 1..]
    requires PlainDescriptionLines(Lines(d + "\n"))
    ensures Lines(d + "\n") == [line] + Lines(rest + "\n")
    ensures PlainDescriptionLine(line) && PlainDescriptionLines(Lines(rest + "\n"))
    ensures d == line + "\n" + rest
  {
    SplitAtNewline(d, i, line, rest);
    LinesCons(line, rest + "\n");
    PlainDescriptionTail(line, Lines(rest + "\n"));
  }

  lemma SplitAtNewline(d: string, i: nat, line: string, rest: string)
    requires i < |d| && d[i] == '\n' && (forall j :: 0 <= j < i ==> d[j] != '\n')
    requires line == d[..i] && rest == d[i + 1..]
    ensures d == line + "\n" + rest && d + "\n" == line + "\n" + (rest + "\n") && '\n' !in line
  {
    assert d == line + "\n" + rest;
  }

  lemma PlainDescriptionTail(line: string, tail: seq<string>)
    requires PlainDescriptionLines([line] + tail)
    ensures PlainDescriptionLine(line) && PlainDescriptionLines(tail)
  {
    assert ([line] + tail)[0] == line;
    forall k | 0 <= k < |tail| ensures PlainDescriptionLine(tail[k]) {
      assert tail[k] == ([line] + tail)[k + 1];
    }
  }

  /** One non-empty description line joined on, then the rest read. */
  lemma FoldDescriptionLine(p: Parser, line: string, tail: seq<string>)
    requires MapsSorted(p.ev) && p.section == Desc && PlainDescriptionLine(line)
    ensures Fold(p, [line] + tail) == Fold(p.(ev := p.ev.(description := JoinedDescription(p.ev.description, line))), tail)
  {
    assert StripCr(line) == line;
    StepDescriptionLine(p, line);
    FoldCons(p, line, tail);
  }

  predicate SingleLines(ls: seq<string>) {
    forall k :: 0 <= k < |ls| ==> '\n' !in ls[k]
  }

  lemma SingleLinesAppend(a: seq<string>, b: seq<string>)
    requires SingleLines(a) && SingleLines(b)
    ensures SingleLines(a + b)
  {
    forall k | 0 <= k < |a + b| ensures '\n' !in (a + b)[k] {
      if k >= |a| {
        assert (a + b)[k] == b[k - |a|];
      }
    }
  }

  lemma EntryLinesSingle(m: seq<Entry>)
    requires PlainEntries(m)
    ensures SingleLines(EntryLines(m))
  {
    forall k | 0 <= k < |m| ensures '\n' !in EntryLines(m)[k] {
      var e := m[k];
      assert EntryLines(m)[k] == e.key + ": " + e.value;
      assert '\n' !in e.key && '\n' !in e.value;
    }
  }

  lemma HeadLinesSingle(ev: Event, user: string)
    requires Writable(ev) && '\n' !in user
    ensures SingleLines(HeadLines(ev, user))
  {
    IntToStringSingle(ev.time);
  }

  /** A decimal numeral holds no newline. */
  lemma IntToStringSingle(i: int)
    ensures '\n' !in IntToString(i)
  {
    var n := NatToString(if i < 0 then -i else i);
    assert forall c :: c in n ==> IsDigit(c);
  }

  /** Every line before the description is a single line. */
  lemma EventLinesSingle(ev: Event, user: string)
    requires Writable(ev) && '\n' !in user
    ensures SingleLines(LinesBeforeDescription(ev, user))
  {
    HeadLinesSingle(ev, user);
    EntryLinesSingle(ev.gameUpdates);
    EntryLinesSingle(ev.teamAUpdates);
    EntryLinesSingle(ev.teamBUpdates);
    var h := HeadLines(ev, user);
    var g, a, b := EntryLines(ev.gameUpdates), EntryLines(ev.teamAUpdates), EntryLines(ev.teamBUpdates);
    SingleLinesAppend(h, g);
    SingleLinesAppend(h + g, [TeamAHeader]);
    SingleLinesAppend(h + g + [TeamAHeader], a);
    SingleLinesAppend(h + g + [TeamAHeader] + a, [TeamBHeader]);
    SingleLinesAppend(h + g + [TeamAHeader] + a + [TeamBHeader], b);
    SingleLinesAppend(h + g + [TeamAHeader] + a + [TeamBHeader] + b, [DescriptionHeader]);
  }

  /** `getline` splits the body into exactly the lines that were written,
      the description giving its own lines. */
  lemma LinesOfEventBody(ev: Event, user: string)
    requires Writable(ev) && '\n' !in user
    ensures Lines(EventBodyText(ev, user)) == LinesBeforeDescription(ev, user) + Lines(ev.description + "\n")
  {
    var ls := LinesBeforeDescription(ev, user);
    EventLinesSingle(ev, user);
    UnlinesSnoc(ls, ev.description);
    assert Unlines(ls) + ev.description + "\n" == Unlines(ls) + (ev.description + "\n");
    LinesOfUnlines(ls, ev.description + "\n");
  }

  lemma DescriptionLinesLast(ev: Event, user: string, d: seq<string>)
    ensures HeadLines(ev, user) + EntryLines(ev.gameUpdates) + [TeamAHeader] + EntryLines(ev.teamAUpdates)
      + [TeamBHeader] + EntryLines(ev.teamBUpdates) + ([DescriptionHeader] + d)
      == LinesBeforeDescription(ev, user) + d
  {
  }

  /** Parsing the body `buildEventBody(ev, user)` gives back `ev`: both
      names, the event name, the time, the three maps and the
      description. */
  lemma EventBodyRoundTrip(ev: Event, user: string)
    requires WellFormed(ev) && Writable(ev) && '\n' !in user
    ensures Parse(EventBodyText(ev, user)) == Some(ev)
  {
    LinesOfEventBody(ev, user);
    var h := HeadLines(ev, user);
    var g, a, b := EntryLines(ev.gameUpdates), EntryLines(ev.teamAUpdates), EntryLines(ev.teamBUpdates);
    var e1 := HeadEvent(ev);
    var e2 := e1.(gameUpdates := ev.gameUpdates);
    var e3 := e2.(teamAUpdates := ev.teamAUpdates);
    var e4 := e3.(teamBUpdates := ev.teamBUpdates);
    FoldHead(ev, user);
    FoldEntries(Parser(e1, General), ev.gameUpdates);
    PutAllIntoEmpty(ev.gameUpdates);
    FoldChain(h, g, Parser(e1, General), Parser(e2, General));
    StepTeamAHeader(Parser(e2, General));
    FoldOne(Parser(e2, General), TeamAHeader, Parser(e2, TeamA));
    FoldChain(h + g, [TeamAHeader], Parser(e2, General), Parser(e2, TeamA));
    FoldEntries(Parser(e2, TeamA), ev.teamAUpdates);
    PutAllIntoEmpty(ev.teamAUpdates);
    FoldChain(h + g + [TeamAHeader], a, Parser(e2, TeamA), Parser(e3, TeamA));
    StepTeamBHeader(Parser(e3, TeamA));
    FoldOne(Parser(e3, TeamA), TeamBHeader, Parser(e3, TeamB));
    FoldChain(h + g + [TeamAHeader] + a, [TeamBHeader], Parser(e3, TeamA), Parser(e3, TeamB));
    FoldEntries(Parser(e3, TeamB), ev.teamBUpdates);
    PutAllIntoEmpty(ev.teamBUpdates);
    FoldChain(h + g + [TeamAHeader] + a + [TeamBHeader], b, Parser(e3, TeamB), Parser(e4, TeamB));
    FoldDescription(Parser(e4, TeamB), ev.description);
    var d := Lines(ev.description + "\n");
    FoldChain(h + g + [TeamAHeader] + a + [TeamBHeader] + b, [DescriptionHeader] + d,
      Parser(e4, TeamB), Parser(ev, Desc));
    DescriptionLinesLast(ev, user, d);
  }
}
