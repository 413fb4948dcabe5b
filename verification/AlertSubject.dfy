/** What an alert is about, as a deduplication key, its inverse, and the migration of older keys. */
module AlertSubject {
  import opened Wrappers
  import opened Text

  const PREFIX := "alert"
  const STATE := "state"
  const CHANGE := "change"
  const DISK_FORECAST := "disk_forecast"

  datatype Subject = Subject(agent: string, space: string, subjects: seq<string>)

  function SpaceFor(eventType: string): string {
    if eventType == CHANGE then CHANGE else STATE
  }

  function SubjectText(eventType: string, sections: seq<string>): string {
    var joined := Join(Sorted(sections), '+');
    if joined == "" then eventType else joined
  }

  function DedupKey(agent: string, eventType: string, sections: seq<string>): string {
    Join([PREFIX, agent, SpaceFor(eventType), SubjectText(eventType, sections)], '|')
  }

  function NonEmpty(parts: seq<string>): (r: seq<string>)
    ensures forall s :: s in r <==> s in parts && s != ""
  {
    if parts == [] then []
    else
      assert parts == [parts[0]] + parts[1..];
      (if parts[0] == "" then [] else [parts[0]]) + NonEmpty(parts[1..])
  }

  function Parse(key: string): Option<Subject> {
    if key == "" then None
    else
      var parts := Split(key, '|');
      if |parts| != 4 || parts[0] != PREFIX then None
      else Some(Subject(parts[1], parts[2], NonEmpty(Split(parts[3], '+'))))
  }

  function Migrate(key: string): string {
    match Parse(key)
    case None => key
    case Some(Subject(agent, middle, subjects)) =>
      if (middle == STATE || middle == CHANGE) && subjects != [] then key
      else DedupKey(agent, middle, if middle == DISK_FORECAST && subjects == [] then ["disk"] else subjects)
  }

  /** A section name the key can carry. */
  ghost predicate Plain(s: string) {
    s != "" && '|' !in s && '+' !in s
  }

  ghost predicate AllPlain(names: seq<string>) {
    forall i :: 0 <= i < |names| ==> Plain(names[i])
  }

  lemma {:induction false} NonEmptyKeeps(parts: seq<string>)
    requires forall i :: 0 <= i < |parts| ==> parts[i] != ""
    ensures NonEmpty(parts) == parts
  {
    if parts != [] {
      NonEmptyKeeps(parts[1..]);
    }
  }

  lemma {:induction false} ParseParts(parts: seq<string>)
    requires |parts| == 4 && parts[0] == PREFIX
    requires forall i :: 0 <= i < |parts| ==> '|' !in parts[i]
    ensures Parse(Join(parts, '|')) == Some(Subject(parts[1], parts[2], NonEmpty(Split(parts[3], '+'))))
  {
    SplitJoin(parts, '|');
  }

  lemma {:induction false} FourParts(agent: string, space: string, subject: string)
    requires '|' !in agent && '|' !in space && '|' !in subject
    ensures Parse(Join([PREFIX, agent, space, subject], '|')) ==
      Some(Subject(agent, space, NonEmpty(Split(subject, '+'))))
  {
    var parts := [PREFIX, agent, space, subject];
    ParseParts(parts);
  }

  lemma SubjectOfPlain(eventType: string, sections: seq<string>)
    requires sections != [] && AllPlain(sections)
    ensures '|' !in SubjectText(eventType, sections)
    ensures NonEmpty(Split(SubjectText(eventType, sections), '+')) == Sorted(sections)
  {
    var sorted := Sorted(sections);
    assert forall i :: 0 <= i < |sorted| ==> Plain(sorted[i]) by {
      forall i | 0 <= i < |sorted|
        ensures Plain(sorted[i])
      {
        assert sorted[i] in sections;
      }
    }
    assert sorted[0] != "";
    JoinFree(sorted, '+', '|');
    SplitJoin(sorted, '+');
    NonEmptyKeeps(sorted);
  }

  /** A key as it is written: the kind of space, and the sections in order or, without any, the event. */
  lemma {:induction false} KeySpelled(agent: string, eventType: string, sections: seq<string>)
    ensures
      var subject := if Join(Sorted(sections), '+') == "" then eventType else Join(Sorted(sections), '+');
      var space := if eventType == "change" then "change" else "state";
      DedupKey(agent, eventType, sections) == "alert|" + agent + "|" + space + "|" + subject
  {
    var subject := SubjectText(eventType, sections);
    var space := if eventType == "change" then "change" else "state";
    JoinFour("alert", agent, space, subject);
    assert "alert" + "|" == "alert|";
  }

  lemma JoinFour(a: string, b: string, c: string, d: string)
    ensures Join([a, b, c, d], '|') == a + "|" + b + "|" + c + "|" + d
  {
    assert [a, b, c, d][1..] == [b, c, d] && [b, c, d][1..] == [c, d] && [c, d][1..] == [d];
    assert Join([c, d], '|') == c + ['|'] + d;
    assert Join([b, c, d], '|') == b + ['|'] + (c + ['|'] + d);
  }

  /** Parsing a key built from sections gives back the host, the space and the sorted sections. */
  lemma ParseInvertsKey(agent: string, eventType: string, sections: seq<string>)
    requires '|' !in agent && sections != [] && AllPlain(sections)
    ensures Parse(DedupKey(agent, eventType, sections)) == Some(Subject(agent, SpaceFor(eventType), Sorted(sections)))
  {
    SubjectOfPlain(eventType, sections);
    FourParts(agent, SpaceFor(eventType), SubjectText(eventType, sections));
  }

  /** The order in which the sections were visited does not matter, whatever the names. */
  lemma KeyIgnoresOrder(agent: string, eventType: string, a: seq<string>, b: seq<string>)
    requires multiset(a) == multiset(b)
    ensures DedupKey(agent, eventType, a) == DedupKey(agent, eventType, b)
  {
    SortedIff(a, b);
  }

  /** Two alerts share a key exactly when they concern the same host, space and sections. */
  lemma SameKeyIff(agent: string, eventType: string, a: seq<string>, agent': string, eventType': string, b: seq<string>)
    requires '|' !in agent && a != [] && AllPlain(a)
    requires '|' !in agent' && b != [] && AllPlain(b)
    ensures DedupKey(agent, eventType, a) == DedupKey(agent', eventType', b) <==>
      agent == agent' && SpaceFor(eventType) == SpaceFor(eventType') && multiset(a) == multiset(b)
  {
    ParseInvertsKey(agent, eventType, a);
    ParseInvertsKey(agent', eventType', b);
    SortedIff(a, b);
    assert Sorted(a)[0] in a && Sorted(b)[0] in b;
    if Sorted(a) == Sorted(b) {
      assert Join(Sorted(a), '+') != "" by {
      }
    }
  }

  // ---- Migration ----

  ghost predicate OnlyPlus(s: string) {
    forall i :: 0 <= i < |s| ==> s[i] == '+'
  }

  lemma {:induction false} NoSubjectsIff(s: string)
    ensures NonEmpty(Split(s, '+')) == [] <==> OnlyPlus(s)
  {
    if s != "" {
      NoSubjectsIff(s[1..]);
      var rest := Split(s[1..], '+');
      if s[0] == '+' {
        assert ([""] + rest)[1..] == rest;
        assert OnlyPlus(s) <==> OnlyPlus(s[1..]);
      } else {
        assert Split(s, '+')[0] != "";
        assert Split(s, '+')[0] in NonEmpty(Split(s, '+'));
      }
    }
  }

  lemma SubjectsPlain(key: string)
    requires Parse(key).Some?
    ensures '|' !in Parse(key).value.agent && '|' !in Parse(key).value.space
    ensures AllPlain(Parse(key).value.subjects)
  {
    var parts := Split(key, '|');
    var subjects := Parse(key).value.subjects;
    forall i | 0 <= i < |subjects|
      ensures Plain(subjects[i])
    {
      assert subjects[i] in NonEmpty(Split(parts[3], '+'));
      var j :| 0 <= j < |Split(parts[3], '+')| && Split(parts[3], '+')[j] == subjects[i];
      if '|' in subjects[i] {
        SplitWithin(parts[3], '+', j, '|');
      }
    }
  }

  /** A key that names no subject and whose space field holds nothing but joiners. */
  ghost predicate Unsettled(key: string) {
    Parse(key).Some? && Parse(key).value.subjects == [] && OnlyPlus(Parse(key).value.space)
  }

  /** What one migration leaves: the same host and subjects, in a current key unless the key is unsettled. */
  lemma MigrateParses(key: string)
    requires Parse(key).Some?
    ensures
      var Subject(agent, middle, subjects) := Parse(key).value;
      var after := Parse(Migrate(key));
      && after.Some? && after.value.agent == agent
      && (subjects != [] ==> multiset(after.value.subjects) == multiset(subjects))
      && after.value.space in {STATE, CHANGE}
      && (after.value.subjects == [] <==> Unsettled(key))
  {
    var Subject(agent, middle, subjects) := Parse(key).value;
    SubjectsPlain(key);
    if !((middle == STATE || middle == CHANGE) && subjects != []) {
      var given := if middle == DISK_FORECAST && subjects == [] then ["disk"] else subjects;
      if given != [] {
        ParseInvertsKey(agent, middle, given);
        assert |Sorted(given)| == |given|;
      } else {
        BareKey(agent, middle);
        NoSubjectsIff(middle);
      }
    }
  }

  lemma {:induction false} BareKey(agent: string, eventType: string)
    requires '|' !in agent && '|' !in eventType
    ensures Parse(DedupKey(agent, eventType, [])) ==
      Some(Subject(agent, SpaceFor(eventType), NonEmpty(Split(eventType, '+'))))
  {
    assert Sorted([]) == [];
    FourParts(agent, SpaceFor(eventType), eventType);
  }

  lemma NamesAreNotPlus()
    ensures !OnlyPlus(STATE) && !OnlyPlus(CHANGE) && !OnlyPlus(DISK_FORECAST)
  {
    assert STATE[0] == 's' && CHANGE[0] == 'c' && DISK_FORECAST[0] == 'd';
  }

  lemma BareParses(agent: string, eventType: string)
    requires '|' !in agent && '|' !in eventType && eventType != CHANGE
    ensures Parse(DedupKey(agent, eventType, [])).Some?
    ensures Parse(DedupKey(agent, eventType, [])).value.agent == agent
    ensures Parse(DedupKey(agent, eventType, [])).value.space == STATE
    ensures Parse(DedupKey(agent, eventType, [])).value.subjects == [] <==> OnlyPlus(eventType)
  {
    BareKey(agent, eventType);
    NoSubjectsIff(eventType);
  }

  lemma MigrateUnsettled(key: string)
    requires Unsettled(key)
    ensures Migrate(Migrate(key)) != Migrate(key)
  {
    var Subject(agent, middle, _) := Parse(key).value;
    SubjectsPlain(key);
    NamesAreNotPlus();
    NamesDiffer();
    BareParses(agent, middle);
    BareParses(agent, STATE);
  }

  lemma NamesDiffer()
    ensures STATE != CHANGE && STATE != DISK_FORECAST && '|' !in STATE
  {
  }

  /** Migrating twice is migrating once, except exactly on unsettled keys. */
  lemma MigrateIdempotentIff(key: string)
    ensures Migrate(Migrate(key)) == Migrate(key) <==> !Unsettled(key)
  {
    if Unsettled(key) {
      MigrateUnsettled(key);
    } else if Parse(key).Some? {
      MigrateParses(key);
    }
  }

  /** A third migration never finds anything left to do. */
  lemma MigrateSettlesInTwo(key: string)
    ensures Migrate(Migrate(Migrate(key))) == Migrate(Migrate(key))
  {
    MigrateIdempotentIff(Migrate(key));
    if Parse(key).Some? {
      MigrateParses(key);
      NamesAreNotPlus();
    }
  }
}
