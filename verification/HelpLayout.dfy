/** src/cli_output/help.rs: grouping and ordering of the root help, whatever order the hash maps give. */
module HelpLayout {
  import opened Wrappers
  import opened Integers
  import opened Namespace
  import opened Sequences
  import opened TextOrder
  import Registration

  const OTHER := "Other"

  datatype Entry = Entry(id: string, summary: string, category: Option<string>, helpOrder: Option<nat>, group: bool)

  /** What a line shows and what it is sorted by; `group` says which loop collected it. */
  datatype Row = Row(order: nat, id: string, summary: string, group: bool)

  datatype Section = Section(name: string, rows: seq<Row>)

  function SectionOf(e: Entry): string { e.category.UnwrapOr(OTHER) }

  function RowOf(e: Entry): Row { Row(e.helpOrder.UnwrapOr(U32_MAX), e.id, e.summary, e.group) }

  // ----------------------------------------------------------------- collecting

  function CommandEntry(k: string, c: Command): seq<Entry> {
    if '/' !in k && !c.hidden then [Entry(c.id, c.summary, c.category, c.helpOrder, false)] else []
  }

  function GroupEntry(k: string, g: GroupMetadata): seq<Entry> {
    if '/' !in k && !g.hidden then [Entry(k, g.summary, g.category, g.helpOrder, true)] else []
  }

  function CommandEntryAt(r: Registry): string -> seq<Entry> {
    k => if k in r.commands then CommandEntry(k, r.commands[k]) else []
  }

  function GroupEntryAt(r: Registry): string -> seq<Entry> {
    k => if k in r.groups then GroupEntry(k, r.groups[k]) else []
  }

  /** `all_entries`, for one iteration order of each map. */
  function AllEntries(r: Registry, commands: seq<string>, groups: seq<string>): seq<Entry> {
    FlatMap(commands, CommandEntryAt(r)) + FlatMap(groups, GroupEntryAt(r))
  }

  function RowIn(section: string): Entry -> seq<Row> { e => if SectionOf(e) == section then [RowOf(e)] else [] }

  function RowsIn(entries: seq<Entry>, section: string): seq<Row> { FlatMap(entries, RowIn(section)) }

  function SectionNames(entries: seq<Entry>): set<string> { set e | e in entries :: SectionOf(e) }

  /** The grouping loop: `groups.entry(key).or_default().push(entry)`. */
  method GroupBySection(entries: seq<Entry>) returns (groups: map<string, seq<Row>>)
    ensures groups.Keys == SectionNames(entries)
    ensures forall k :: k in groups ==> groups[k] == RowsIn(entries, k)
  {
    groups := map[];
    assert SectionNames(entries[..0]) == {};
    hide RowsIn, SectionNames;
    for i := 0 to |entries|
      invariant groups.Keys == SectionNames(entries[..i])
      invariant forall k :: k in groups ==> groups[k] == RowsIn(entries[..i], k)
    {
      var e := entries[i];
      var key := SectionOf(e);
      OneMoreEntry(entries, i);
      if key !in groups { NoRows(entries[..i], key); }
      groups := groups[key := (if key in groups then groups[key] else []) + [RowOf(e)]];
    }
    assert entries[..|entries|] == entries;
  }

  lemma {:induction false} OneMoreEntry(entries: seq<Entry>, i: nat)
    requires i < |entries|
    ensures SectionNames(entries[..i + 1]) == SectionNames(entries[..i]) + {SectionOf(entries[i])}
    ensures forall k :: RowsIn(entries[..i + 1], k) == RowsIn(entries[..i], k) + if SectionOf(entries[i]) == k then [RowOf(entries[i])] else []
  {
    assert entries[..i + 1] == entries[..i] + [entries[i]];
    forall k ensures RowsIn(entries[..i + 1], k) == RowsIn(entries[..i], k) + RowIn(k)(entries[i]) {
      FlatMapStep(entries, i, RowIn(k));
    }
  }

  lemma {:induction false} NoRows(entries: seq<Entry>, section: string)
    requires section !in SectionNames(entries)
    ensures RowsIn(entries, section) == []
  {
    if RowsIn(entries, section) != [] {
      FlatMapHas(entries, RowIn(section), RowsIn(entries, section)[0]);
    }
  }

  // --------------------------------------------------------------- the comparators

  /** `to_ascii_lowercase`: no capital letter is left, and nothing else has changed. */
  function Lower(s: string): (low: string)
    ensures |low| == |s| && forall i :: 0 <= i < |s| ==> !('A' <= low[i] <= 'Z')
    ensures forall i :: 0 <= i < |s| && low[i] != s[i] ==> 'A' <= s[i] <= 'Z' && low[i] as int - 'a' as int == s[i] as int - 'A' as int
  {
    seq(|s|, i requires 0 <= i < |s| => if 'A' <= s[i] <= 'Z' then (s[i] as int + 32) as char else s[i])
  }

  /** `help_section_rank`: the position among the configured sections. */
  function SectionRank(configured: seq<string>, section: string): (r: Option<nat>)
    ensures r.Some? ==> r.value < |configured| && configured[r.value] == section
    ensures r.Some? <==> section in configured
  {
    if configured == [] then None
    else if configured[0] == section then Some(0)
    else match SectionRank(configured[1..], section)
      case None => None
      case Some(i) => Some(i + 1)
  }

  /** The first of each label. */
  function Deduped(sections: seq<string>): seq<string> {
    if sections == [] then []
    else
      var before, last := Deduped(sections[..|sections| - 1]), sections[|sections| - 1];
      if last in before then before else before + [last]
  }

  lemma {:induction false} RankGrows(s: seq<string>, last: string, a: string)
    ensures SectionRank(s + [last], a)
         == if SectionRank(s, a).Some? then SectionRank(s, a) else if a == last then Some(|s|) else None
  {
    if s != [] {
      assert (s + [last])[1..] == s[1..] + [last];
      RankGrows(s[1..], last, a);
    } else {
      assert ([] + [last])[1..] == [];
    }
  }

  /** Dropping repeats keeps every label once and keeps which of two labels comes first. */
  lemma {:induction false} DedupedRanks(sections: seq<string>, a: string, b: string)
    ensures (a in Deduped(sections) <==> a in sections) && (b in Deduped(sections) <==> b in sections)
    ensures a in sections && b in sections ==>
              (SectionRank(Deduped(sections), a).value < SectionRank(Deduped(sections), b).value
               <==> SectionRank(sections, a).value < SectionRank(sections, b).value)
    ensures Distinct(Deduped(sections))
  {
    if sections != [] {
      var before, last := sections[..|sections| - 1], sections[|sections| - 1];
      assert sections == before + [last];
      DedupedRanks(before, a, b);
      DedupedRanks(before, b, a);
      DedupedRanks(before, last, a);
      RankGrows(before, last, a);
      RankGrows(before, last, b);
      RankGrows(Deduped(before), last, a);
      RankGrows(Deduped(before), last, b);
    }
  }

  predicate Distinct(s: seq<string>) { forall i, j :: 0 <= i < j < |s| ==> s[i] != s[j] }

  /** `set_help_section_order`: what the list becomes. */
  method SetHelpSectionOrder(sections: seq<string>) returns (order: seq<string>)
    ensures order == Deduped(sections)
  {
    order := [];
    for i := 0 to |sections|
      invariant order == Deduped(sections[..i])
    {
      assert sections[..i + 1][..i] == sections[..i];
      if sections[i] !in order { order := order + [sections[i]]; }
    }
    assert sections[..|sections|] == sections;
  }

  /** Not `Greater` in the comparator of `group_keys.sort_by`. */
  predicate SectionLe(configured: seq<string>, a: string, b: string) {
    if a == OTHER && b == OTHER then true
    else if a == OTHER then false
    else if b == OTHER then true
    else
      var last := |configured|;
      var x, y := SectionRank(configured, a).UnwrapOr(last), SectionRank(configured, b).UnwrapOr(last);
      x < y || (x == y && (StrLess(Lower(a), Lower(b)) || (Lower(a) == Lower(b) && StrLe(a, b))))
  }

  function BySection(configured: seq<string>): (string, string) -> bool { (a, b) => SectionLe(configured, a, b) }

  function SectionKey(configured: seq<string>, a: string): Key {
    if a == OTHER then Key(|configured| + 1, "", "") else Key(SectionRank(configured, a).UnwrapOr(|configured|), Lower(a), a)
  }

  /** The section comparator is a total order on names. */
  lemma {:induction false} SectionsTotallyOrdered(configured: seq<string>)
    ensures TotalPreorder(BySection(configured))
    ensures forall s :: Antisymmetric(s, BySection(configured))
  {
    forall a, b ensures SectionLe(configured, a, b) <==> KeyLe(SectionKey(configured, a), SectionKey(configured, b)) {
    }
    forall a, b, c
      ensures SectionLe(configured, a, b) || SectionLe(configured, b, a)
      ensures SectionLe(configured, a, b) && SectionLe(configured, b, a) ==> a == b
      ensures SectionLe(configured, a, b) && SectionLe(configured, b, c) ==> SectionLe(configured, a, c)
    {
      KeysOrdered(SectionKey(configured, a), SectionKey(configured, b), SectionKey(configured, c));
    }
  }

  function RowKey(a: Row): Key { Key(a.order, Lower(a.id), a.id) }

  /** Not `Greater` in the comparator of `entries.sort_by`. */
  predicate RowLe(a: Row, b: Row) { KeyLe(RowKey(a), RowKey(b)) }

  /** The same, with commands before groups on a tie: what a stable sort of commands followed by groups gives. */
  predicate RowFine(a: Row, b: Row) { RowLe(a, b) && (RowLe(b, a) && a.group ==> b.group) }

  lemma {:induction false} RowsOrdered()
    ensures TotalPreorder(RowLe)
    ensures forall a, b :: RowFine(a, b) ==> RowLe(a, b)
    ensures forall a, b :: RowLe(a, b) && !RowLe(b, a) ==> RowFine(a, b)
    ensures forall a, b :: RowLe(a, b) && RowLe(b, a) ==> a.order == b.order && a.id == b.id
  {
    forall a: Row, b: Row, c: Row
      ensures RowLe(a, b) || RowLe(b, a)
      ensures RowLe(a, b) && RowLe(b, a) ==> a.order == b.order && a.id == b.id
      ensures RowLe(a, b) && RowLe(b, c) ==> RowLe(a, c)
    {
      KeysOrdered(RowKey(a), RowKey(b), RowKey(c));
    }
  }

  // -------------------------------------------------------------------- the layout

  function SectionsAt(entries: seq<Entry>, names: seq<string>): seq<Section> {
    seq(|names|, i requires 0 <= i < |names| => Section(names[i], Sort(RowsIn(entries, names[i]), RowLe)))
  }

  /** The sections and lines of the help, for one order of the collected entries and of the section table. */
  function Layout(configured: seq<string>, entries: seq<Entry>, names: seq<string>): seq<Section> {
    SectionsAt(entries, Sort(names, BySection(configured)))
  }

  /** An iteration order for each of the three hash maps. */
  datatype Orders = Orders(commands: seq<string>, groups: seq<string>, sections: seq<string>)

  function EntriesBy(r: Registry, o: Orders): seq<Entry> { AllEntries(r, o.commands, o.groups) }

  ghost predicate OrdersOf(r: Registry, o: Orders) {
    && Enumerates(o.commands, r.commands.Keys) && Enumerates(o.groups, r.groups.Keys)
    && Enumerates(o.sections, SectionNames(EntriesBy(r, o)))
  }

  function LayoutBy(r: Registry, configured: seq<string>, o: Orders): seq<Section> {
    Layout(configured, EntriesBy(r, o), o.sections)
  }

  ghost predicate SameLayout(r: Registry, configured: seq<string>) {
    forall o, p :: OrdersOf(r, o) && OrdersOf(r, p) ==> LayoutBy(r, configured, o) == LayoutBy(r, configured, p)
  }

  // --------------------------------------------------------------- when it is settled

  predicate ShownCommand(r: Registry, k: string) { k in r.commands && CommandEntry(k, r.commands[k]) != [] }

  function ShownEntry(r: Registry, k: string): Entry
    requires ShownCommand(r, k)
  {
    CommandEntry(k, r.commands[k])[0]
  }

  /** Two visible root commands that the comparator cannot tell apart and the reader can. */
  predicate Tie(r: Registry, k: string, l: string) {
    && ShownCommand(r, k) && ShownCommand(r, l)
    && SectionOf(ShownEntry(r, k)) == SectionOf(ShownEntry(r, l))
    && RowOf(ShownEntry(r, k)).order == RowOf(ShownEntry(r, l)).order
    && ShownEntry(r, k).id == ShownEntry(r, l).id
    && ShownEntry(r, k).summary != ShownEntry(r, l).summary
  }

  ghost predicate NoTies(r: Registry) { forall k, l :: !Tie(r, k, l) }

  lemma {:induction false} EntriesPermute(r: Registry, o: Orders, p: Orders)
    requires OrdersOf(r, o) && OrdersOf(r, p)
    ensures multiset(EntriesBy(r, o)) == multiset(EntriesBy(r, p))
  {
    EnumerationOnce(o.commands, r.commands.Keys);
    EnumerationOnce(p.commands, r.commands.Keys);
    EnumerationOnce(o.groups, r.groups.Keys);
    EnumerationOnce(p.groups, r.groups.Keys);
    FlatMapPermute(o.commands, p.commands, CommandEntryAt(r));
    FlatMapPermute(o.groups, p.groups, GroupEntryAt(r));
  }

  /** The section names come out in one order, whatever is tied below them. */
  lemma {:induction false} SectionsSettled(r: Registry, configured: seq<string>, o: Orders, p: Orders)
    requires OrdersOf(r, o) && OrdersOf(r, p)
    ensures Sort(o.sections, BySection(configured)) == Sort(p.sections, BySection(configured))
  {
    EntriesPermute(r, o, p);
    SameSections(EntriesBy(r, o), EntriesBy(r, p));
    hide Sort, BySection, EntriesBy, SectionNames, Enumerates;
    SameNamesSort(o.sections, p.sections, SectionNames(EntriesBy(r, o)), configured);
  }

  lemma {:induction false} SameSections(a: seq<Entry>, b: seq<Entry>)
    requires multiset(a) == multiset(b)
    ensures SectionNames(a) == SectionNames(b)
  {
    hide SectionOf;
    forall e ensures e in a <==> e in b { assert e in a <==> e in multiset(a); }
  }

  lemma {:induction false} SameNamesSort(a: seq<string>, b: seq<string>, names: set<string>, configured: seq<string>)
    requires Enumerates(a, names) && Enumerates(b, names)
    ensures Sort(a, BySection(configured)) == Sort(b, BySection(configured))
  {
    var le := BySection(configured);
    EnumerationOnce(a, names);
    EnumerationOnce(b, names);
    SectionsTotallyOrdered(configured);
    SortKeepsAll(a, le);
    SortKeepsAll(b, le);
    SortSorts(a, le);
    SortSorts(b, le);
    SortedUnique(Sort(a, le), Sort(b, le), le);
  }

  lemma {:induction false} RowsSplit(r: Registry, o: Orders, section: string)
    ensures RowsIn(EntriesBy(r, o), section)
         == RowsIn(FlatMap(o.commands, CommandEntryAt(r)), section) + RowsIn(FlatMap(o.groups, GroupEntryAt(r)), section)
  {
    FlatMapConcat(FlatMap(o.commands, CommandEntryAt(r)), FlatMap(o.groups, GroupEntryAt(r)), RowIn(section));
  }

  /** Where a row of a section comes from. */
  lemma {:induction false} CommandRowFrom(r: Registry, commands: seq<string>, section: string, row: Row)
    requires row in RowsIn(FlatMap(commands, CommandEntryAt(r)), section)
    ensures exists k :: k in commands && ShownCommand(r, k) && SectionOf(ShownEntry(r, k)) == section && row == RowOf(ShownEntry(r, k))
  {
    var entries := FlatMap(commands, CommandEntryAt(r));
    FlatMapHas(entries, RowIn(section), row);
    var e :| e in entries && row in RowIn(section)(e);
    FlatMapHas(commands, CommandEntryAt(r), e);
    var k :| k in commands && e in CommandEntryAt(r)(k);
    assert ShownCommand(r, k) && ShownEntry(r, k) == e;
  }

  lemma {:induction false} GroupRowFrom(r: Registry, groups: seq<string>, section: string, row: Row)
    requires row in RowsIn(FlatMap(groups, GroupEntryAt(r)), section)
    ensures row.id in r.groups && GroupEntry(row.id, r.groups[row.id]) != []
    ensures row == RowOf(GroupEntry(row.id, r.groups[row.id])[0])
  {
    var entries := FlatMap(groups, GroupEntryAt(r));
    FlatMapHas(entries, RowIn(section), row);
    var e :| e in entries && row in RowIn(section)(e);
    FlatMapHas(groups, GroupEntryAt(r), e);
    var k :| k in groups && e in GroupEntryAt(r)(k);
  }

  predicate AllOfKind(rows: seq<Row>, group: bool) { forall row :: row in rows ==> row.group == group }

  lemma {:induction false} Kinds(r: Registry, o: Orders, section: string)
    ensures AllOfKind(RowsIn(FlatMap(o.commands, CommandEntryAt(r)), section), false)
    ensures AllOfKind(RowsIn(FlatMap(o.groups, GroupEntryAt(r)), section), true)
  {
    forall row | row in RowsIn(FlatMap(o.commands, CommandEntryAt(r)), section) ensures !row.group {
      CommandRowFrom(r, o.commands, section, row);
    }
    forall row | row in RowsIn(FlatMap(o.groups, GroupEntryAt(r)), section) ensures row.group {
      GroupRowFrom(r, o.groups, section, row);
    }
  }

  /** A stable sort of commands followed by groups also sorts by kind. */
  lemma {:induction false} SortsFinely(a: seq<Row>, b: seq<Row>)
    requires AllOfKind(a, false) && AllOfKind(b, true)
    ensures Sorted(Sort(a + b, RowLe), RowFine)
    decreases |a| + |b|
  {
    RowsOrdered();
    if a != [] {
      assert (a + b)[1..] == a[1..] + b && a[0] in a;
      assert forall row :: row in a[1..] ==> row in a;
      SortsFinely(a[1..], b);
      InsertSorts(a[0], Sort(a[1..] + b, RowLe), RowLe, RowFine);
    } else if b != [] {
      assert a + b == b && a + b[1..] == b[1..];
      assert forall row :: row in b[1..] ==> row in b;
      SortsFinely(a, b[1..]);
      SortKeepsAll(b[1..], RowLe);
      forall y | y in Sort(b[1..], RowLe) && RowLe(b[0], y) ensures RowFine(b[0], y) {
        assert y in multiset(b[1..]);
      }
      InsertSorts(b[0], Sort(b[1..], RowLe), RowLe, RowFine);
    }
  }

  /** Without ties, two rows of a section that are each before the other are the same. */
  lemma {:induction false} RowsApart(r: Registry, o: Orders, section: string)
    requires NoTies(r)
    ensures Antisymmetric(RowsIn(EntriesBy(r, o), section), RowFine)
  {
    var a, b := RowsIn(FlatMap(o.commands, CommandEntryAt(r)), section), RowsIn(FlatMap(o.groups, GroupEntryAt(r)), section);
    RowsSplit(r, o, section);
    Kinds(r, o, section);
    RowsOrdered();
    forall x, y | x in a + b && y in a + b && RowFine(x, y) && RowFine(y, x) ensures x == y {
      if x.group {
        GroupRowFrom(r, o.groups, section, x);
        GroupRowFrom(r, o.groups, section, y);
      } else {
        CommandRowFrom(r, o.commands, section, x);
        CommandRowFrom(r, o.commands, section, y);
        var k :| ShownCommand(r, k) && SectionOf(ShownEntry(r, k)) == section && x == RowOf(ShownEntry(r, k));
        var l :| ShownCommand(r, l) && SectionOf(ShownEntry(r, l)) == section && y == RowOf(ShownEntry(r, l));
        assert !Tie(r, k, l);
      }
    }
  }

  lemma {:induction false} RowsSettled(r: Registry, o: Orders, p: Orders, section: string)
    requires NoTies(r) && OrdersOf(r, o) && OrdersOf(r, p)
    ensures Sort(RowsIn(EntriesBy(r, o), section), RowLe) == Sort(RowsIn(EntriesBy(r, p), section), RowLe)
  {
    hide RowsIn, EntriesBy, OrdersOf, NoTies, Sort, RowLe, RowFine, Sorted, Antisymmetric;
    var a, b := RowsIn(EntriesBy(r, o), section), RowsIn(EntriesBy(r, p), section);
    RowsPermute(r, o, p, section);
    SortKeepsAll(a, RowLe);
    SortKeepsAll(b, RowLe);
    SortedByKind(r, o, section);
    SortedByKind(r, p, section);
    RowsApart(r, o, section);
    AntisymmetricPermute(a, Sort(a, RowLe), RowFine);
    SortedUnique(Sort(a, RowLe), Sort(b, RowLe), RowFine);
  }

  lemma {:induction false} RowsPermute(r: Registry, o: Orders, p: Orders, section: string)
    requires OrdersOf(r, o) && OrdersOf(r, p)
    ensures multiset(RowsIn(EntriesBy(r, o), section)) == multiset(RowsIn(EntriesBy(r, p), section))
  {
    EntriesPermute(r, o, p);
    FlatMapPermute(EntriesBy(r, o), EntriesBy(r, p), RowIn(section));
  }

  lemma {:induction false} SortedByKind(r: Registry, o: Orders, section: string)
    ensures Sorted(Sort(RowsIn(EntriesBy(r, o), section), RowLe), RowFine)
  {
    RowsSplit(r, o, section);
    Kinds(r, o, section);
    SortsFinely(RowsIn(FlatMap(o.commands, CommandEntryAt(r)), section), RowsIn(FlatMap(o.groups, GroupEntryAt(r)), section));
  }

  lemma {:induction false} LayoutSettled(r: Registry, configured: seq<string>, o: Orders, p: Orders)
    requires NoTies(r) && OrdersOf(r, o) && OrdersOf(r, p)
    ensures LayoutBy(r, configured, o) == LayoutBy(r, configured, p)
  {
    hide OrdersOf, NoTies, Sort;
    SectionsSettled(r, configured, o, p);
    var names := Sort(o.sections, BySection(configured));
    forall i | 0 <= i < |names|
      ensures Sort(RowsIn(EntriesBy(r, o), names[i]), RowLe) == Sort(RowsIn(EntriesBy(r, p), names[i]), RowLe)
    {
      RowsSettled(r, o, p, names[i]);
    }
  }

  // --------------------------------------------------------------- and only then

  function TiedRows(r: Registry, o: Orders, section: string, y: Row): seq<Row> {
    FlatMap(Sort(RowsIn(EntriesBy(r, o), section), RowLe), Tied(y, RowLe))
  }

  /** The first of the rows tied with y is the command that was met first. */
  lemma {:induction false} FirstTied(r: Registry, k: string, rest: seq<string>, o: Orders, y: Row)
    requires ShownCommand(r, k) && o.commands == [k] + rest
    requires RowKey(RowOf(ShownEntry(r, k))) == RowKey(y)
    ensures var tied := TiedRows(r, o, SectionOf(ShownEntry(r, k)), y); tied != [] && tied[0] == RowOf(ShownEntry(r, k))
  {
    hide RowLe, Sort, CommandEntry, EntriesBy;
    var e := ShownEntry(r, k);
    var section := SectionOf(e);
    var others := FirstEntry(r, k, rest, o);
    RowsOrdered();
    SameKeyTied(RowOf(e), y);
    SortIsStable(RowsIn([e] + others, section), y, RowLe);
    FlatMapCons(e, others, RowIn(section));
    FlatMapCons(RowOf(e), RowsIn(others, section), Tied(y, RowLe));
  }

  lemma {:induction false} SameKeyTied(x: Row, y: Row)
    requires RowKey(x) == RowKey(y)
    ensures RowLe(x, y) && RowLe(y, x)
  {
  }

  lemma {:induction false} FirstEntry(r: Registry, k: string, rest: seq<string>, o: Orders) returns (others: seq<Entry>)
    requires ShownCommand(r, k) && o.commands == [k] + rest
    ensures EntriesBy(r, o) == [ShownEntry(r, k)] + others
  {
    FlatMapCons(k, rest, CommandEntryAt(r));
    others := FlatMap(rest, CommandEntryAt(r)) + FlatMap(o.groups, GroupEntryAt(r));
  }

  lemma {:induction false} WithSections(r: Registry, commands: seq<string>, groups: seq<string>) returns (o: Orders)
    requires Enumerates(commands, r.commands.Keys) && Enumerates(groups, r.groups.Keys)
    ensures OrdersOf(r, o) && o.commands == commands
  {
    var sections := SomeOrder(SectionNames(AllEntries(r, commands, groups)));
    o := Orders(commands, groups, sections);
  }

  lemma {:induction false} FirstTwo(rest: seq<string>, k: string, l: string, keys: set<string>)
    requires k in keys && l in keys && k != l && Enumerates(rest, keys - {k, l})
    ensures Enumerates([k] + ([l] + rest), keys)
  {
    assert forall i :: 0 <= i < |rest| ==> rest[i] in rest;
  }

  lemma {:induction false} SectionThere(r: Registry, configured: seq<string>, o: Orders, k: string) returns (i: nat)
    requires OrdersOf(r, o) && ShownCommand(r, k)
    ensures var names := Sort(o.sections, BySection(configured)); i < |names| && names[i] == SectionOf(ShownEntry(r, k))
  {
    hide Sort;
    var e, names := ShownEntry(r, k), Sort(o.sections, BySection(configured));
    SectionListed(r, o, k);
    SortHas(o.sections, BySection(configured), SectionOf(e));
    i :| 0 <= i < |names| && names[i] == SectionOf(e);
  }

  lemma {:induction false} SectionListed(r: Registry, o: Orders, k: string)
    requires OrdersOf(r, o) && ShownCommand(r, k)
    ensures SectionOf(ShownEntry(r, k)) in o.sections
  {
    var e := ShownEntry(r, k);
    assert k in o.commands && e in CommandEntryAt(r)(k);
    FlatMapHas(o.commands, CommandEntryAt(r), e);
    assert e in EntriesBy(r, o);
    assert SectionOf(e) in SectionNames(EntriesBy(r, o));
  }

  lemma {:induction false} TieShows(r: Registry, configured: seq<string>, k: string, l: string)
    requires Tie(r, k, l)
    ensures !SameLayout(r, configured)
  {
    hide Enumerates, SectionNames, Sort, RowsIn;
    var rest := SomeOrder(r.commands.Keys - {k, l});
    var groups := SomeOrder(r.groups.Keys);
    FirstTwo(rest, k, l, r.commands.Keys);
    FirstTwo(rest, l, k, r.commands.Keys);
    var o := WithSections(r, [k] + ([l] + rest), groups);
    var p := WithSections(r, [l] + ([k] + rest), groups);
    var y := RowOf(ShownEntry(r, l));
    FirstTied(r, k, [l] + rest, o, y);
    FirstTied(r, l, [k] + rest, p, y);
    var i := SectionThere(r, configured, o, k);
    SectionsSettled(r, configured, o, p);
    assert LayoutBy(r, configured, o)[i] != LayoutBy(r, configured, p)[i];
  }

  /** The help is a function of the registry, and not of hash order, exactly when no two root commands are tied. */
  lemma {:induction false} SameLayoutIff(r: Registry, configured: seq<string>)
    ensures SameLayout(r, configured) <==> NoTies(r)
  {
    if NoTies(r) {
      forall o, p | OrdersOf(r, o) && OrdersOf(r, p) ensures LayoutBy(r, configured, o) == LayoutBy(r, configured, p) {
        LayoutSettled(r, configured, o, p);
      }
    } else {
      var k, l :| Tie(r, k, l);
      TieShows(r, configured, k, l);
    }
  }

  /** Root commands registered under their own id are never tied. */
  lemma {:induction false} OwnIdsNeverTie(r: Registry)
    requires forall k :: k in r.commands && '/' !in k ==> r.commands[k].id == k
    ensures NoTies(r)
  {
  }

  function Named(summary: string): Command { Registration.Plain().(id := "x", summary := summary) }

  function SharedId(): Registry { Registry(map["a" := Named("1"), "b" := Named("2")], map[]) }

  /** Two root paths whose commands carry one id: a valid registry whose help depends on hash order. */
  lemma {:induction false} SharedIdTies(configured: seq<string>)
    ensures Registration.Valid(SharedId()) && Tie(SharedId(), "a", "b") && !SameLayout(SharedId(), configured)
  {
    hide SameLayout;
    var x, y := Cmd("a", Named("1")), Cmd("b", Named("2"));
    assert Aliases(x) == {} && Aliases(y) == {};
    assert !Conflict(x, y) && !Conflict(y, x);
    assert forall z :: Registered(SharedId(), z) ==> z == x || z == y;
    assert Named("1").summary[0] != Named("2").summary[0];
    SameLayoutIff(SharedId(), configured);
  }

  // ------------------------------------------------------------ what order, and what lines

  /** Line a may stand above line b: by help order, then by id without case, then by id, then commands first. */
  predicate MayPrecede(a: Row, b: Row) {
    || a.order < b.order
    || (a.order == b.order && StrLess(Lower(a.id), Lower(b.id)))
    || (a.order == b.order && Lower(a.id) == Lower(b.id) && StrLess(a.id, b.id))
    || (a.order == b.order && a.id == b.id && (a.group ==> b.group))
  }

  /** Section a may stand above section b: "Other" is last, configured ones first and in order, the rest by name without case. */
  predicate MayLead(configured: seq<string>, a: string, b: string) {
    && a != OTHER
    && (b == OTHER ||
        (if a in configured && b in configured
         then forall i :: 0 <= i < |configured| && configured[i] == b ==> a in configured[..i]
         else if a in configured || b in configured then a in configured
         else StrLess(Lower(a), Lower(b)) || (Lower(a) == Lower(b) && StrLess(a, b))))
  }

  lemma {:induction false} RankIsFirst(configured: seq<string>, a: string, i: nat)
    requires i < |configured| && configured[i] == a
    ensures SectionRank(configured, a).Some? && SectionRank(configured, a).value <= i
  {
    if configured[0] != a { RankIsFirst(configured[1..], a, i - 1); }
  }

  lemma {:induction false} SectionsLead(configured: seq<string>, a: string, b: string)
    requires SectionLe(configured, a, b) && a != b
    ensures MayLead(configured, a, b)
  {
    if b != OTHER && a in configured && b in configured {
      var x, y := SectionRank(configured, a).value, SectionRank(configured, b).value;
      forall i | 0 <= i < |configured| && configured[i] == b ensures a in configured[..i] {
        RankIsFirst(configured, b, i);
        assert x != y && x < y <= i;
        assert configured[..i][x] == a;
      }
    }
  }

  /** The sections, each once, stand in the order described, and so do the lines of each. */
  lemma {:induction false} LayoutInOrder(r: Registry, configured: seq<string>, o: Orders)
    requires OrdersOf(r, o)
    ensures var layout := LayoutBy(r, configured, o);
            && (forall i, j :: 0 <= i < j < |layout| ==> MayLead(configured, layout[i].name, layout[j].name))
            && (forall k, i, j :: 0 <= k < |layout| && 0 <= i < j < |layout[k].rows|
                                  ==> MayPrecede(layout[k].rows[i], layout[k].rows[j]))
  {
    var layout, names := LayoutBy(r, configured, o), Sort(o.sections, BySection(configured));
    SectionsTotallyOrdered(configured);
    SortSorts(o.sections, BySection(configured));
    NamesDistinct(r, configured, o);
    hide Sort, OrdersOf;
    forall i, j | 0 <= i < j < |layout| ensures MayLead(configured, layout[i].name, layout[j].name) {
      assert BySection(configured)(names[i], names[j]) && names[i] != names[j];
      SectionsLead(configured, names[i], names[j]);
    }
    forall k, i, j | 0 <= k < |layout| && 0 <= i < j < |layout[k].rows| ensures MayPrecede(layout[k].rows[i], layout[k].rows[j]) {
      SortedByKind(r, o, names[k]);
      assert RowFine(layout[k].rows[i], layout[k].rows[j]);
      FineMayPrecede(layout[k].rows[i], layout[k].rows[j]);
    }
  }

  lemma {:induction false} FineMayPrecede(a: Row, b: Row)
    requires RowFine(a, b)
    ensures MayPrecede(a, b)
  {
    if a.order == b.order && a.id == b.id { SameKeyTied(b, a); }
  }

  lemma {:induction false} NamesDistinct(r: Registry, configured: seq<string>, o: Orders)
    requires OrdersOf(r, o)
    ensures Distinct(Sort(o.sections, BySection(configured)))
  {
    var names, keys := Sort(o.sections, BySection(configured)), SectionNames(EntriesBy(r, o));
    SortKeepsAll(o.sections, BySection(configured));
    EnumerationOnce(o.sections, keys);
    hide Sort, OrdersOf, SectionNames;
    forall i, j | 0 <= i < j < |names| ensures names[i] != names[j] {
      if names[i] == names[j] { TwiceIn(names, i, j); }
    }
  }

  lemma {:induction false} TwiceIn(names: seq<string>, i: nat, j: nat)
    requires i < j < |names| && names[i] == names[j]
    ensures multiset(names)[names[i]] >= 2
  {
    assert names == names[..j] + names[j..];
    assert names[..j][i] in names[..j] && names[j..][0] in names[j..];
  }

  /** A line of section n that some visible root command, or group, asks for. */
  ghost predicate CommandLine(r: Registry, k: string, n: string, row: Row) {
    && k in r.commands && '/' !in k && !r.commands[k].hidden
    && row.id == r.commands[k].id && row.summary == r.commands[k].summary && !row.group
    && row.order == r.commands[k].helpOrder.UnwrapOr(U32_MAX) && n == r.commands[k].category.UnwrapOr("Other")
  }

  ghost predicate GroupLine(r: Registry, k: string, n: string, row: Row) {
    && k in r.groups && '/' !in k && !r.groups[k].hidden
    && row.id == k && row.summary == r.groups[k].summary && row.group
    && row.order == r.groups[k].helpOrder.UnwrapOr(U32_MAX) && n == r.groups[k].category.UnwrapOr("Other")
  }

  /** A line is shown in a section exactly when some visible root command or root group asks for it there. */
  lemma {:induction false} LayoutShowsExactly(r: Registry, configured: seq<string>, o: Orders, n: string, row: Row)
    requires OrdersOf(r, o)
    ensures (exists i :: 0 <= i < |LayoutBy(r, configured, o)| && LayoutBy(r, configured, o)[i].name == n && row in LayoutBy(r, configured, o)[i].rows)
            <==> (exists k :: CommandLine(r, k, n, row) || GroupLine(r, k, n, row))
  {
    var layout, names := LayoutBy(r, configured, o), Sort(o.sections, BySection(configured));
    RowsExactly(r, o, n, row);
    SortHas(o.sections, BySection(configured), n);
    SortHas(RowsIn(EntriesBy(r, o), n), RowLe, row);
    SectionNonEmpty(r, o, n);
    hide Sort, RowsIn, CommandLine, GroupLine, OrdersOf, EntriesBy;
    if row in RowsIn(EntriesBy(r, o), n) {
      var i :| 0 <= i < |names| && names[i] == n;
      assert layout[i].name == n && row in layout[i].rows;
    }
  }

  /** A section is there exactly when it has lines. */
  lemma {:induction false} SectionNonEmpty(r: Registry, o: Orders, n: string)
    requires OrdersOf(r, o)
    ensures n in o.sections <==> RowsIn(EntriesBy(r, o), n) != []
  {
    var entries := EntriesBy(r, o);
    if n in SectionNames(entries) {
      var e :| e in entries && SectionOf(e) == n;
      FlatMapHas(entries, RowIn(n), RowOf(e));
    } else {
      NoRows(entries, n);
    }
  }

  lemma {:induction false} RowsExactly(r: Registry, o: Orders, n: string, row: Row)
    requires OrdersOf(r, o)
    ensures row in RowsIn(EntriesBy(r, o), n) <==> exists k :: CommandLine(r, k, n, row) || GroupLine(r, k, n, row)
  {
    var entries := EntriesBy(r, o);
    FlatMapHas(entries, RowIn(n), row);
    if row in RowsIn(entries, n) {
      var e :| e in entries && row in RowIn(n)(e);
      if e in FlatMap(o.commands, CommandEntryAt(r)) { CommandAsks(r, o, n, e); } else { GroupAsks(r, o, n, e); }
    }
    if k :| CommandLine(r, k, n, row) || GroupLine(r, k, n, row) {
      hide RowsIn, EntriesBy, OrdersOf;
      if CommandLine(r, k, n, row) { CommandLineShown(r, o, k, n, row); } else { GroupLineShown(r, o, k, n, row); }
    }
  }

  lemma {:induction false} CommandAsks(r: Registry, o: Orders, n: string, e: Entry)
    requires e in FlatMap(o.commands, CommandEntryAt(r)) && SectionOf(e) == n
    ensures exists k :: CommandLine(r, k, n, RowOf(e))
  {
    FlatMapHas(o.commands, CommandEntryAt(r), e);
    var k :| k in o.commands && e in CommandEntryAt(r)(k);
    assert CommandLine(r, k, n, RowOf(e));
  }

  lemma {:induction false} GroupAsks(r: Registry, o: Orders, n: string, e: Entry)
    requires e in FlatMap(o.groups, GroupEntryAt(r)) && SectionOf(e) == n
    ensures exists k :: GroupLine(r, k, n, RowOf(e))
  {
    FlatMapHas(o.groups, GroupEntryAt(r), e);
    var k :| k in o.groups && e in GroupEntryAt(r)(k);
    assert GroupLine(r, k, n, RowOf(e));
  }

  lemma {:induction false} CommandLineShown(r: Registry, o: Orders, k: string, n: string, row: Row)
    requires OrdersOf(r, o) && CommandLine(r, k, n, row)
    ensures row in RowsIn(EntriesBy(r, o), n)
  {
    var e := CommandEntry(k, r.commands[k])[0];
    FlatMapHas(o.commands, CommandEntryAt(r), e);
    assert k in o.commands && e in CommandEntryAt(r)(k);
    FlatMapHas(EntriesBy(r, o), RowIn(n), row);
    assert e in EntriesBy(r, o) && row in RowIn(n)(e);
  }

  lemma {:induction false} GroupLineShown(r: Registry, o: Orders, k: string, n: string, row: Row)
    requires OrdersOf(r, o) && GroupLine(r, k, n, row)
    ensures row in RowsIn(EntriesBy(r, o), n)
  {
    var e := GroupEntry(k, r.groups[k])[0];
    FlatMapHas(o.groups, GroupEntryAt(r), e);
    assert k in o.groups && e in GroupEntryAt(r)(k);
    FlatMapHas(EntriesBy(r, o), RowIn(n), row);
    assert e in EntriesBy(r, o) && row in RowIn(n)(e);
  }

  /** The visible root commands, and groups, of a section. */
  ghost function CommandsOf(r: Registry, n: string): set<string> {
    set k | k in r.commands && '/' !in k && !r.commands[k].hidden && n == r.commands[k].category.UnwrapOr("Other")
  }

  ghost function GroupsOf(r: Registry, n: string): set<string> {
    set k | k in r.groups && '/' !in k && !r.groups[k].hidden && n == r.groups[k].category.UnwrapOr("Other")
  }

  /** A section has one line for each of them. */
  lemma {:induction false} LayoutShowsOnce(r: Registry, configured: seq<string>, o: Orders, i: nat)
    requires OrdersOf(r, o) && i < |LayoutBy(r, configured, o)|
    ensures var s := LayoutBy(r, configured, o)[i]; |s.rows| == |CommandsOf(r, s.name)| + |GroupsOf(r, s.name)|
  {
    var n := LayoutBy(r, configured, o)[i].name;
    var rows := RowsIn(EntriesBy(r, o), n);
    SortKeepsAll(rows, RowLe);
    assert |Sort(rows, RowLe)| == |multiset(rows)| == |rows|;
    RowsSplit(r, o, n);
    CommandsCounted(r, o, n);
    GroupsCounted(r, o, n);
  }

  lemma {:induction false} OneOrNone(entries: seq<Entry>, n: string)
    requires |entries| <= 1
    ensures |FlatMap(entries, RowIn(n))| <= 1
    ensures FlatMap(entries, RowIn(n)) != [] <==> entries != [] && SectionOf(entries[0]) == n
  {
    if entries != [] {
      assert entries == [entries[0]];
      FlatMapOne(entries[0], RowIn(n));
    }
  }

  lemma {:induction false} CommandKeysEnumerated(r: Registry, o: Orders)
    requires OrdersOf(r, o)
    ensures Enumerates(o.commands, r.commands.Keys)
  {
  }

  lemma {:induction false} CommandCounted(r: Registry, n: string, k: string)
    ensures var f := Then(CommandEntryAt(r), RowIn(n)); |f(k)| <= 1 && (k in CommandsOf(r, n) <==> k in r.commands && f(k) != [])
  {
    OneOrNone(CommandEntryAt(r)(k), n);
  }

  lemma {:induction false} CommandsCounted(r: Registry, o: Orders, n: string)
    requires OrdersOf(r, o)
    ensures |RowsIn(FlatMap(o.commands, CommandEntryAt(r)), n)| == |CommandsOf(r, n)|
  {
    var f := Then(CommandEntryAt(r), RowIn(n));
    FlatMapTwice(o.commands, CommandEntryAt(r), RowIn(n));
    hide FlatMap, CommandsOf, Then, RowIn, CommandEntryAt, OrdersOf, SectionNames;
    forall k ensures |f(k)| <= 1 && (k in CommandsOf(r, n) <==> k in r.commands && f(k) != []) { CommandCounted(r, n, k); }
    CommandKeysEnumerated(r, o);
    FlatMapCount(o.commands, r.commands.Keys, f);
    assert CommandsOf(r, n) == Having(r.commands.Keys, f);
  }

  lemma {:induction false} GroupKeysEnumerated(r: Registry, o: Orders)
    requires OrdersOf(r, o)
    ensures Enumerates(o.groups, r.groups.Keys)
  {
  }

  lemma {:induction false} GroupCounted(r: Registry, n: string, k: string)
    ensures var f := Then(GroupEntryAt(r), RowIn(n)); |f(k)| <= 1 && (k in GroupsOf(r, n) <==> k in r.groups && f(k) != [])
  {
    OneOrNone(GroupEntryAt(r)(k), n);
  }

  lemma {:induction false} GroupsCounted(r: Registry, o: Orders, n: string)
    requires OrdersOf(r, o)
    ensures |RowsIn(FlatMap(o.groups, GroupEntryAt(r)), n)| == |GroupsOf(r, n)|
  {
    var f := Then(GroupEntryAt(r), RowIn(n));
    FlatMapTwice(o.groups, GroupEntryAt(r), RowIn(n));
    hide FlatMap, GroupsOf, Then, RowIn, GroupEntryAt, OrdersOf, SectionNames;
    forall k ensures |f(k)| <= 1 && (k in GroupsOf(r, n) <==> k in r.groups && f(k) != []) { GroupCounted(r, n, k); }
    GroupKeysEnumerated(r, o);
    FlatMapCount(o.groups, r.groups.Keys, f);
    assert GroupsOf(r, n) == Having(r.groups.Keys, f);
  }

  // ------------------------------------------------------------------------ text

  /** `str::len`: bytes of the UTF-8 form. */
  function ByteLength(s: string): nat {
    if s == "" then 0
    else
      var u := s[0] as int;
      ByteLength(s[1..]) + if u < 0x80 then 1 else if u < 0x800 then 2 else if u < 0x1_0000 then 3 else 4
  }

  function Width(rows: seq<Row>): nat {
    if rows == [] then 0
    else
      var w, n := Width(rows[..|rows| - 1]), ByteLength(rows[|rows| - 1].id);
      if n > w then n else w
  }

  function Spaces(n: nat): string { seq(n, _ => ' ') }

  function RowText(row: Row, column: nat): string {
    var n := ByteLength(row.id);
    "  " + row.id + Spaces(if n < column then column - n else 0) + row.summary + "\n"
  }

  function RowsText(rows: seq<Row>, column: nat): string {
    if rows == [] then "" else RowsText(rows[..|rows| - 1], column) + RowText(rows[|rows| - 1], column)
  }

  /** A configured section is shown as written, any other in title case. */
  function SectionText(configured: seq<string>, titleCase: string -> string, s: Section): string {
    (if SectionRank(configured, s.name).Some? then s.name else titleCase(s.name)) + ":\n"
    + RowsText(s.rows, Width(s.rows) + 2) + "\n"
  }

  function LayoutText(configured: seq<string>, titleCase: string -> string, layout: seq<Section>): string {
    if layout == [] then ""
    else LayoutText(configured, titleCase, layout[..|layout| - 1]) + SectionText(configured, titleCase, layout[|layout| - 1])
  }

  /** The entries loop and the per-section loop of `render`, for one order of each hash map. */
  method RenderSections(r: Registry, configured: seq<string>, titleCase: string -> string, o: Orders) returns (out: string)
    requires OrdersOf(r, o)
    ensures out == LayoutText(configured, titleCase, LayoutBy(r, configured, o))
  {
    hide Sort, RowsIn, SectionText, EntriesBy, SectionNames;
    var entries := CollectEntries(r, o);
    var groups := GroupBySection(entries);
    var keys := Sort(o.sections, BySection(configured));
    forall k ensures k in keys <==> k in groups { SortHas(o.sections, BySection(configured), k); }
    ghost var layout := LayoutBy(r, configured, o);
    hide OrdersOf;
    out := "";
    for i := 0 to |keys|
      invariant out == LayoutText(configured, titleCase, layout[..i])
    {
      assert keys[i] in keys;
      var rows := Sort(groups[keys[i]], RowLe);
      assert layout[..i + 1][..i] == layout[..i] && layout[i] == Section(keys[i], rows);
      var text := RenderSection(configured, titleCase, keys[i], rows);
      out := out + text;
    }
    assert layout[..|layout|] == layout;
  }

  /** One turn of the per-section loop. */
  method RenderSection(configured: seq<string>, titleCase: string -> string, name: string, rows: seq<Row>) returns (out: string)
    ensures out == SectionText(configured, titleCase, Section(name, rows))
  {
    var heading := if SectionRank(configured, name).Some? then name else titleCase(name);
    var lines := RenderRows(rows);
    out := heading + ":\n" + lines + "\n";
  }

  method RenderRows(rows: seq<Row>) returns (out: string)
    ensures out == RowsText(rows, Width(rows) + 2)
  {
    var column := Width(rows) + 2;
    out := "";
    for i := 0 to |rows|
      invariant out == RowsText(rows[..i], column)
    {
      assert rows[..i + 1][..i] == rows[..i];
      out := out + RowText(rows[i], column);
    }
    assert rows[..|rows|] == rows;
  }

  /** The two loops that fill `all_entries`. */
  method CollectEntries(r: Registry, o: Orders) returns (entries: seq<Entry>)
    requires Enumerates(o.commands, r.commands.Keys) && Enumerates(o.groups, r.groups.Keys)
    ensures entries == EntriesBy(r, o)
  {
    hide CommandEntry, GroupEntry, Enumerates, FlatMap;
    entries := CollectCommands(r, o.commands);
    ghost var fromCommands := entries;
    FlatMapNothing(GroupEntryAt(r));
    for i := 0 to |o.groups|
      invariant entries == fromCommands + FlatMap(o.groups[..i], GroupEntryAt(r))
    {
      var k := o.groups[i];
      FlatMapStep(o.groups, i, GroupEntryAt(r));
      Enumerated(o.groups, r.groups.Keys, i);
      ghost var before := entries;
      var g := r.groups[k];
      if !g.hidden && '/' !in k { entries := entries + [Entry(k, g.summary, g.category, g.helpOrder, true)]; }
      GroupEntryMeans(k, g);
      assert entries == before + GroupEntryAt(r)(k);
    }
    assert o.groups[..|o.groups|] == o.groups;
  }

  lemma {:induction false} FlatMapNothing(f: string -> seq<Entry>)
    ensures forall s: seq<string> :: FlatMap(s[..0], f) == []
  {
  }

  lemma {:induction false} GroupEntryMeans(k: string, g: GroupMetadata)
    ensures GroupEntry(k, g) == if !g.hidden && '/' !in k then [Entry(k, g.summary, g.category, g.helpOrder, true)] else []
  {
  }

  lemma {:induction false} Enumerated(order: seq<string>, keys: set<string>, i: nat)
    requires Enumerates(order, keys) && i < |order|
    ensures order[i] in keys
  {
    assert order[i] in order;
  }

  method CollectCommands(r: Registry, order: seq<string>) returns (entries: seq<Entry>)
    requires Enumerates(order, r.commands.Keys)
    ensures entries == FlatMap(order, CommandEntryAt(r))
  {
    entries := [];
    for i := 0 to |order|
      invariant entries == FlatMap(order[..i], CommandEntryAt(r))
    {
      var k := order[i];
      assert order[..i + 1][..i] == order[..i];
      Enumerated(order, r.commands.Keys, i);
      var c := r.commands[k];
      if '/' !in k && !c.hidden { entries := entries + [Entry(c.id, c.summary, c.category, c.helpOrder, false)]; }
    }
    assert order[..|order|] == order;
  }

  /** Hence one text for every iteration order. */
  lemma {:induction false} SameText(r: Registry, configured: seq<string>, titleCase: string -> string, o: Orders, p: Orders)
    requires NoTies(r) && OrdersOf(r, o) && OrdersOf(r, p)
    ensures LayoutText(configured, titleCase, LayoutBy(r, configured, o)) == LayoutText(configured, titleCase, LayoutBy(r, configured, p))
  {
    LayoutSettled(r, configured, o, p);
  }

  // ------------------------------------------------------------- what the text looks like

  /** One to four bytes, by code point. */
  lemma {:induction false} ByteLengthShown()
    ensures ByteLength("a") == 1 && ByteLength("\U{E9}") == 2 && ByteLength("\U{20AC}") == 3 && ByteLength("\U{1F600}") == 4
  {
    assert ByteLength("") == 0;
  }

  lemma {:induction false} ByteLengthConcat(a: string, b: string)
    ensures ByteLength(a + b) == ByteLength(a) + ByteLength(b)
  {
    if a == "" {
      assert a + b == b;
    } else {
      assert (a + b)[1..] == a[1..] + b;
      ByteLengthConcat(a[1..], b);
    }
  }

  lemma {:induction false} SpacesLength(n: nat)
    ensures ByteLength(Spaces(n)) == n
  {
    if n > 0 {
      assert Spaces(n)[1..] == Spaces(n - 1);
      SpacesLength(n - 1);
    }
  }

  /** The width is that of the widest id. */
  lemma {:induction false} WidthIsWidest(rows: seq<Row>, row: Row)
    ensures row in rows ==> ByteLength(row.id) <= Width(rows)
    ensures rows != [] ==> exists widest :: widest in rows && ByteLength(widest.id) == Width(rows)
  {
    if rows != [] {
      var before, last := rows[..|rows| - 1], rows[|rows| - 1];
      assert rows == before + [last];
      WidthIsWidest(before, row);
      if Width(rows) == ByteLength(last.id) {
        assert last in rows;
      } else {
        assert Width([]) == 0 && before != [];
        var widest :| widest in before && ByteLength(widest.id) == Width(before);
        assert widest in rows;
      }
    }
  }

  /** Every line of a section is its id, at least two spaces, and its summary; all summaries start in one column. */
  lemma {:induction false} SummariesAlign(rows: seq<Row>, row: Row) returns (lead: string, gap: nat)
    requires row in rows
    ensures RowText(row, Width(rows) + 2) == lead + row.summary + "\n"
    ensures lead == "  " + row.id + Spaces(gap) && gap >= 2 && ByteLength(lead) == Width(rows) + 4
  {
    WidthIsWidest(rows, row);
    gap := Width(rows) + 2 - ByteLength(row.id);
    lead := "  " + row.id + Spaces(gap);
    SpacesLength(gap);
    SpacesLength(2);
    assert Spaces(2) == "  ";
    ByteLengthConcat("  ", row.id);
    ByteLengthConcat("  " + row.id, Spaces(gap));
  }

  /** A configured section is headed as written, any other in title case. */
  lemma {:induction false} SectionHeaded(configured: seq<string>, titleCase: string -> string, s: Section)
    ensures s.name in configured ==> s.name + ":\n" <= SectionText(configured, titleCase, s)
    ensures s.name !in configured ==> titleCase(s.name) + ":\n" <= SectionText(configured, titleCase, s)
  {
  }

  /** Lines, and sections, are printed from first to last. */
  lemma {:induction false} LinesInOrder(a: seq<Row>, b: seq<Row>, column: nat)
    ensures RowsText(a + b, column) == RowsText(a, column) + RowsText(b, column)
  {
    hide RowText;
    if b == [] {
      assert a + b == a;
    } else {
      assert (a + b)[..|a + b| - 1] == a + b[..|b| - 1];
      LinesInOrder(a, b[..|b| - 1], column);
    }
  }

  lemma {:induction false} SectionsInOrder(configured: seq<string>, titleCase: string -> string, a: seq<Section>, b: seq<Section>)
    ensures LayoutText(configured, titleCase, a + b) == LayoutText(configured, titleCase, a) + LayoutText(configured, titleCase, b)
  {
    hide SectionText;
    if b == [] {
      assert a + b == a;
    } else {
      assert (a + b)[..|a + b| - 1] == a + b[..|b| - 1];
      SectionsInOrder(configured, titleCase, a, b[..|b| - 1]);
    }
  }
}
