/** Release notes: the range's commits by type, then scope, then description (scripts/release/notes.ts). */
module Notes {
  import opened Wrappers
  import opened Sorting
  import opened Release

  /** Heading per type, looked up like any property of an object literal. */
  function HeadingByType(kind: string): Lookup<string> {
    match kind
    case "feat" => Own("Features")
    case "fix" => Own("Fixes")
    case "perf" => Own("Performance")
    case "revert" => Own("Reverts")
    case "refactor" => Own("Refactoring")
    case "docs" => Own("Documentation")
    case "test" => Own("Tests")
    case "build" => Own("Build")
    case "ci" => Own("CI")
    case "chore" => Own("Chores")
    case "style" => Own("Style")
    case _ => if InheritedName(kind) then Inherited else Undefined
  }

  /** The types in the order their sections come. */
  function TypeOrder(): seq<string> {
    ["feat", "fix", "perf", "revert", "refactor", "docs", "test", "build", "ci", "chore", "style"]
  }

  function ScopeText(c: Commit): string {
    if c.scope.Some? then c.scope.value else ""
  }

  /** byScopeThenDescription(a, b) <= 0. */
  predicate ByScope(a: Commit, b: Commit) {
    if ScopeText(a) != ScopeText(b) then TextLeq(ScopeText(a), ScopeText(b)) else TextLeq(a.description, b.description)
  }

  function InType(commits: seq<Commit>, kind: string): (r: seq<Commit>)
    ensures forall c :: c in r <==> c in commits && c.kind == kind
  {
    Filter(commits, (c: Commit) => c.kind == kind)
  }

  /** The entries of one section: the commits of its type, in order. */
  function SectionOf(commits: seq<Commit>, kind: string): seq<Commit> {
    Sort(InType(commits, kind), ByScope)
  }

  datatype Section = Section(kind: string, entries: seq<Commit>)

  /** The sections that have entries, in order. */
  function Sections(commits: seq<Commit>, kinds: seq<string>): seq<Section> {
    if kinds == [] then []
    else
      var inType := SectionOf(commits, kinds[0]);
      var rest := Sections(commits, kinds[1..]);
      if inType == [] then rest else [Section(kinds[0], inType)] + rest
  }

  // ----- the text

  function RenderEntry(c: Commit): string {
    "- " + (if c.breaking then "**BREAKING** " else "")
    + (if c.scope.None? then "" else "**" + c.scope.value + ":** ")
    + c.description + " (" + (if |c.hash| > 8 then c.hash[..8] else c.hash) + ")"
  }

  function Join(parts: seq<string>, separator: string): string {
    if parts == [] then "" else if |parts| == 1 then parts[0] else parts[0] + separator + Join(parts[1..], separator)
  }

  function Lines(commits: seq<Commit>): (r: seq<string>)
    ensures |r| == |commits| && forall i | 0 <= i < |r| :: r[i] == RenderEntry(commits[i])
  {
    seq(|commits|, i requires 0 <= i < |commits| => RenderEntry(commits[i]))
  }

  function RenderSection(section: Section): string {
    var heading := HeadingByType(section.kind);
    "### " + (if heading.Own? then heading.value else "undefined") + "\n\n" + Join(Lines(section.entries), "\n")
  }

  function Rendered(sections: seq<Section>): seq<string>
    decreases |sections|
  {
    if sections == [] then [] else Rendered(sections[..|sections| - 1]) + [RenderSection(sections[|sections| - 1])]
  }

  /** The body of one release's section, as a function of the range. */
  function NotesOf(commits: seq<Commit>): string {
    Join(Rendered(Sections(commits, TypeOrder())), "\n\n")
  }

  // ----- every commit once

  function Entries(sections: seq<Section>): seq<Commit> {
    if sections == [] then [] else sections[0].entries + Entries(sections[1..])
  }

  lemma {:induction false} FilterCounts(commits: seq<Commit>, kind: string, c: Commit)
    ensures multiset(InType(commits, kind))[c] == if c.kind == kind then multiset(commits)[c] else 0
  {
    if commits != [] {
      FilterCounts(commits[1..], kind, c);
      assert commits == [commits[0]] + commits[1..];
    }
  }

  /**
   * A commit is listed as often as it is in the range if its type is among those rendered, and not at all otherwise.
   */
  lemma {:induction false} EntriesCount(commits: seq<Commit>, kinds: seq<string>, c: Commit)
    requires Distinct(kinds)
    ensures multiset(Entries(Sections(commits, kinds)))[c] == if c.kind in kinds then multiset(commits)[c] else 0
  {
    if kinds != [] {
      var inType, rest := SectionOf(commits, kinds[0]), Sections(commits, kinds[1..]);
      EntriesCount(commits, kinds[1..], c);
      FilterCounts(commits, kinds[0], c);
      assert kinds == [kinds[0]] + kinds[1..];
      assert ([Section(kinds[0], inType)] + rest)[1..] == rest;
    }
  }

  /** A type of the range for which the check finds no heading. */
  ghost predicate Headless(commits: seq<Commit>, kind: string) {
    HeadingByType(kind).Undefined? && exists c :: c in commits && c.kind == kind
  }

  lemma HeadingIff(kind: string)
    ensures HeadingByType(kind).Own? <==> kind in TypeOrder()
  {
    var all := TypeOrder();
    assert all[0] == "feat" && all[1] == "fix" && all[2] == "perf" && all[3] == "revert" && all[4] == "refactor";
    assert all[5] == "docs" && all[6] == "test" && all[7] == "build" && all[8] == "ci" && all[9] == "chore";
    assert all[10] == "style";
  }

  /** The two tables list the same types, and pass the same names they do not list. */
  lemma HeadingsMatchRules(kind: string)
    ensures HeadingByType(kind).Own? <==> BumpByType(kind).Own?
    ensures HeadingByType(kind).Inherited? <==> BumpByType(kind).Inherited?
  {
    var none := ["docs", "chore", "refactor", "test", "build", "ci", "style", "revert"];
    assert none[0] == "docs" && none[1] == "chore" && none[2] == "refactor" && none[3] == "test";
    assert none[4] == "build" && none[5] == "ci" && none[6] == "style" && none[7] == "revert";
  }

  lemma TypesDistinct()
    ensures Distinct(TypeOrder())
  {
  }

  /** The notes' sections hold every commit of the range exactly as often as it occurs. */
  ghost predicate ListsEveryCommit(commits: seq<Commit>) {
    multiset(Entries(Sections(commits, TypeOrder()))) == multiset(commits)
  }

  /** They do precisely when every type of the range has a heading of its own. */
  lemma EveryCommitOnceIff(commits: seq<Commit>)
    ensures ListsEveryCommit(commits) <==> forall c | c in commits :: HeadingByType(c.kind).Own?
  {
    TypesDistinct();
    var listed := Entries(Sections(commits, TypeOrder()));
    forall c: Commit
      ensures multiset(listed)[c] == if HeadingByType(c.kind).Own? then multiset(commits)[c] else 0
    {
      HeadingIff(c.kind);
      EntriesCount(commits, TypeOrder(), c);
    }
    hide HeadingByType, TypeOrder, Entries, Sections;
    if forall c | c in commits :: HeadingByType(c.kind).Own? {
      forall c
        ensures multiset(listed)[c] == multiset(commits)[c]
      {
        assert c in multiset(commits) <==> c in commits;
      }
    } else {
      var c :| c in commits && !HeadingByType(c.kind).Own?;
      assert multiset(commits)[c] > 0 && multiset(listed)[c] == 0;
    }
  }

  /** When the check reports nothing, every commit is listed exactly when no type of the range is an inherited name. */
  lemma CheckedNotesIff(commits: seq<Commit>)
    requires forall kind :: !Headless(commits, kind)
    ensures ListsEveryCommit(commits) <==> forall c | c in commits :: !InheritedName(c.kind)
  {
    EveryCommitOnceIff(commits);
    forall c | c in commits
      ensures HeadingByType(c.kind).Own? <==> !InheritedName(c.kind)
    {
      assert !Headless(commits, c.kind);
      HeadingsMatchRules(c.kind);
      PassesWithoutRowIff(c.kind);
    }
    hide HeadingByType, ListsEveryCommit;
  }

  /** A commit of type `constructor` passes both checks and is missing from the notes. */
  lemma ConstructorIsDropped(c: Commit)
    requires c.kind == "constructor"
    ensures forall kind :: !Headless([c], kind)
    ensures forall other | other in [c] :: !BumpByType(other.kind).Undefined?
    ensures Entries(Sections([c], TypeOrder())) == []
  {
    var listed := Entries(Sections([c], TypeOrder()));
    TypesDistinct();
    HeadingIff(c.kind);
    hide TypeOrder, Sections;
    forall other: Commit
      ensures other !in multiset(listed)
    {
      EntriesCount([c], TypeOrder(), other);
    }
    assert multiset(listed) == multiset{};
  }

  // ----- the order within a section

  lemma ByScopeOrder()
    ensures TotalPreorder(ByScope)
  {
    forall a, b
      ensures ByScope(a, b) || ByScope(b, a)
    {
      TextTotal(ScopeText(a), ScopeText(b));
      TextTotal(a.description, b.description);
    }
    forall a, b, c | ByScope(a, b) && ByScope(b, c)
      ensures ByScope(a, c)
    {
      ByScopeTransitive(a, b, c);
    }
  }

  lemma ByScopeTransitive(a: Commit, b: Commit, c: Commit)
    requires ByScope(a, b) && ByScope(b, c)
    ensures ByScope(a, c)
  {
    var x, y, z := ScopeText(a), ScopeText(b), ScopeText(c);
    hide TextLeq;
    TextTotal(x, y);
    TextTotal(y, z);
    if x == y == z {
      TextTransitive(a.description, b.description, c.description);
    } else if x != y && y != z {
      TextTransitive(x, y, z);
    }
  }

  ghost predicate InOrder(sections: seq<Section>, kinds: seq<string>) {
    && (forall s | s in sections ::
        s.entries != [] && s.kind in kinds && SortedBy(s.entries, ByScope) && forall c | c in s.entries ::
        c.kind == s.kind)
    && (forall i, j | 0 <= i < j < |sections| :: sections[i].kind != sections[j].kind)
  }

  lemma SectionIsSorted(commits: seq<Commit>, kind: string)
    ensures SortedBy(SectionOf(commits, kind), ByScope)
    ensures forall c :: c in SectionOf(commits, kind) <==> c in commits && c.kind == kind
  {
    ByScopeOrder();
    SortIsSorted(InType(commits, kind), ByScope);
    assert forall c :: c in SectionOf(commits, kind) <==> c in multiset(InType(commits, kind));
  }

  lemma InOrderGrows(section: Section, rest: seq<Section>, kinds: seq<string>)
    requires kinds != [] && Distinct(kinds) && InOrder(rest, kinds[1..]) && section.kind == kinds[0]
        && section.entries != []
    requires SortedBy(section.entries, ByScope) && forall c | c in section.entries :: c.kind == section.kind
    ensures InOrder([section] + rest, kinds)
  {
    assert kinds == [kinds[0]] + kinds[1..];
    forall i | 0 <= i < |rest|
      ensures rest[i].kind != section.kind
    {
      assert rest[i] in rest && rest[i].kind in kinds[1..];
    }
    hide ByScope, SortedBy;
  }

  /**
   * Each section holds one type, none is empty or repeated, and its entries go by scope, those without one first, then
   * by description.
   */
  lemma {:induction false} SectionsInOrder(commits: seq<Commit>, kinds: seq<string>)
    requires Distinct(kinds)
    ensures InOrder(Sections(commits, kinds), kinds)
  {
    if kinds != [] {
      SectionsInOrder(commits, kinds[1..]);
      SectionIsSorted(commits, kinds[0]);
      var rest, entries := Sections(commits, kinds[1..]), SectionOf(commits, kinds[0]);
      assert Sections(commits, kinds) == if entries == [] then rest else [Section(kinds[0], entries)] + rest;
      hide Sections, SectionOf, ByScope, SortedBy;
      if entries != [] {
        InOrderGrows(Section(kinds[0], entries), rest, kinds);
      }
    }
  }

  /** Two commits nothing in the order tells apart. */
  ghost predicate Tie(a: Commit, b: Commit) {
    a != b && a.kind == b.kind && ScopeText(a) == ScopeText(b) && a.description == b.description
  }

  /** Where no two commits of the rendered types tie, the sections do not depend on the order of the range. */
  lemma {:induction false} RangeDeterminesSections(commits: seq<Commit>, others: seq<Commit>, kinds: seq<string>)
    requires multiset(commits) == multiset(others)
    requires forall a, b | a in commits && b in commits && a.kind in kinds :: !Tie(a, b)
    ensures Sections(commits, kinds) == Sections(others, kinds)
  {
    if kinds != [] {
      SameOrder(commits, others, kinds[0]);
      RangeDeterminesSections(commits, others, kinds[1..]);
    }
  }

  lemma SameOrder(commits: seq<Commit>, others: seq<Commit>, kind: string)
    requires multiset(commits) == multiset(others)
    requires forall a, b | a in commits && b in commits && a.kind == kind :: !Tie(a, b)
    ensures SectionOf(commits, kind) == SectionOf(others, kind)
  {
    var xs, ys := SectionOf(commits, kind), SectionOf(others, kind);
    SectionIsSorted(commits, kind);
    SectionIsSorted(others, kind);
    forall c
      ensures multiset(xs)[c] == multiset(ys)[c]
    {
      FilterCounts(commits, kind, c);
      FilterCounts(others, kind, c);
    }
    hide SectionOf;
    forall a, b | a in xs && b in xs && ByScope(a, b) && ByScope(b, a)
      ensures a == b
    {
      TiesAreTies(a, b);
    }
    OrderIsUnique(xs, ys, ByScope);
  }

  lemma TiesAreTies(a: Commit, b: Commit)
    requires a.kind == b.kind && ByScope(a, b) && ByScope(b, a)
    ensures a == b || Tie(a, b)
  {
    TextTotal(ScopeText(a), ScopeText(b));
    TextTotal(a.description, b.description);
  }

  // ----- as they are computed

  method HeadinglessTypes(commits: seq<Commit>) returns (missing: seq<string>)
    ensures forall kind :: kind in missing <==> Headless(commits, kind)
    ensures Distinct(missing) && SortedBy(missing, TextLeq)
    ensures missing == [] ==> (ListsEveryCommit(commits) <==> forall c | c in commits :: !InheritedName(c.kind))
    ensures missing != [] ==> !ListsEveryCommit(commits)
  {
    var covered := (kind: string) => !HeadingByType(kind).Undefined?;
    missing := MissingKinds(commits, covered);
    EveryCommitOnceIff(commits);
    hide HeadingByType, TypeOrder, Sections, ListsEveryCommit, InheritedName;
    forall kind
      ensures kind in missing <==> Headless(commits, kind)
    {
      assert kind in missing <==> Lacks(commits, covered, kind);
    }
    if missing == [] {
      CheckedNotesIff(commits);
    } else {
      assert Headless(commits, missing[0]);
    }
  }

  method RenderNotes(commits: seq<Commit>) returns (notes: string)
    ensures notes == NotesOf(commits)
  {
    var sections := RenderSections(commits, TypeOrder());
    notes := Join(sections, "\n\n");
  }

  method RenderSections(commits: seq<Commit>, order: seq<string>) returns (sections: seq<string>)
    ensures sections == Rendered(Sections(commits, order))
  {
    RenderedNone(commits, order);
    hide SectionOf, Sections, Rendered, RenderSection;
    sections := [];
    for i := 0 to |order|
      invariant sections == Rendered(Sections(commits, order[..i]))
    {
      RenderedStep(commits, order, i);
      var inType := SectionOf(commits, order[i]);
      if inType != [] {
        sections := sections + [RenderSection(Section(order[i], inType))];
      }
    }
    assert order[..|order|] == order;
  }

  lemma RenderedNone(commits: seq<Commit>, order: seq<string>)
    ensures Rendered(Sections(commits, order[..0])) == []
  {
  }

  lemma RenderedStep(commits: seq<Commit>, order: seq<string>, i: nat)
    requires i < |order|
    ensures var k, inType := i + 1, SectionOf(commits, order[i]);
      Rendered(Sections(commits, order[..k]))
      == Rendered(Sections(commits, order[..i])) + if inType == [] then []
          else [RenderSection(Section(order[i], inType))]
  {
    var k := i + 1;
    assert order[..k] == order[..i] + [order[i]];
    SectionsAppend(commits, order[..i], order[i]);
    RenderedAppend(Sections(commits, order[..i]), Section(order[i], SectionOf(commits, order[i])));
    hide SectionOf, Sections, Rendered, RenderSection;
  }

  lemma RenderedAppend(sections: seq<Section>, section: Section)
    ensures Rendered(sections + [section]) == Rendered(sections) + [RenderSection(section)]
  {
    assert (sections + [section])[..|sections|] == sections;
    hide RenderSection;
  }

  lemma {:induction false} SectionsAppend(commits: seq<Commit>, kinds: seq<string>, kind: string)
    ensures Sections(commits, kinds + [kind])
      == if SectionOf(commits, kind) == [] then Sections(commits, kinds)
          else Sections(commits, kinds) + [Section(kind, SectionOf(commits, kind))]
  {
    if kinds == [] {
      assert kinds + [kind] == [kind];
      assert [kind][1..] == [];
    } else {
      assert (kinds + [kind])[1..] == kinds[1..] + [kind];
      SectionsAppend(commits, kinds[1..], kind);
    }
  }

  // ----- what a reader sees

  /** In a section, entries without a scope come first, then scope by scope, and within a scope by description. */
  lemma EntriesInOrder(commits: seq<Commit>, kind: string, i: nat, j: nat)
    requires i < j < |SectionOf(commits, kind)|
    ensures var a, b := SectionOf(commits, kind)[i], SectionOf(commits, kind)[j];
      && a in commits && a.kind == kind
      && (a.scope.None? ==> b.scope.None? || b.scope.value != "" || TextLeq(a.description, b.description))
      && (a.scope.Some? && b.scope.None? ==> a.scope.value == "" && TextLeq(a.description, b.description))
      && (a.scope.Some? && b.scope.Some? && a.scope != b.scope ==> TextLeq(a.scope.value, b.scope.value))
      && (a.scope == b.scope ==> TextLeq(a.description, b.description))
  {
    SectionIsSorted(commits, kind);
    var entries := SectionOf(commits, kind);
    assert ByScope(entries[i], entries[j]);
    assert entries[i] in multiset(entries) && multiset(entries) == multiset(InType(commits, kind));
    hide SectionOf, TextLeq;
  }

  /** A breaking commit's line is the line it would have had, with the mark put in front of it. */
  lemma BreakingIsMarked(c: Commit) returns (words: string)
    ensures RenderEntry(c.(breaking := false)) == "- " + words
    ensures RenderEntry(c.(breaking := true)) == "- " + "**BREAKING** " + words
  {
    var scope := if c.scope.None? then "" else "**" + c.scope.value + ":** ";
    var hash := if |c.hash| > 8 then c.hash[..8] else c.hash;
    words := scope + c.description + " (" + hash + ")";
    InFront("- ", "", scope, c.description, " (", hash, ")");
    InFront("- ", "**BREAKING** ", scope, c.description, " (", hash, ")");
    NothingBetween("- ", words);
  }

  /**
   * A scope is put in front of the same words in bold; they begin with the description and close with the hash, cut to
   * eight characters.
   */
  lemma ScopeIsMarked(c: Commit, scope: string) returns (words: string)
    ensures RenderEntry(c.(breaking := false, scope := None)) == "- " + words
    ensures RenderEntry(c.(breaking := false, scope := Some(scope))) == "- " + ("**" + scope + ":** ") + words
    ensures StartsWith(words, c.description) && |words| == |c.description| + 3 + if |c.hash| < 8 then |c.hash| else 8
    ensures forall i | 0 <= i < 8 && i < |c.hash| :: words[|c.description| + 2 + i] == c.hash[i]
  {
    var bold, hash := "**" + scope + ":** ", if |c.hash| > 8 then c.hash[..8] else c.hash;
    words := c.description + " (" + hash + ")";
    InFront("- ", "", "", c.description, " (", hash, ")");
    InFront("- ", "", bold, c.description, " (", hash, ")");
    NothingBetween("- ", words);
    NothingBetween("- ", bold + words);
    Closes(c.description, " (", hash, ")", bold);
    hide StartsWith;
    assert RenderEntry(c.(breaking := false, scope := None)) == "- " + "" + "" + c.description + " (" + hash + ")";
    assert RenderEntry(c.(breaking := false, scope := Some(scope)))
      == "- " + "" + bold + c.description + " (" + hash + ")";
  }

  lemma Closes(a: string, b: string, c: string, d: string, before: string)
    ensures var all := a + b + c + d;
      && StartsWith(all, a) && |all| == |a| + |b| + |c| + |d|
      && forall i | 0 <= i < |c| :: all[|a| + |b| + i] == c[i]
    ensures "" + a + b + c + d == a + b + c + d
    ensures before + a + b + c + d == before + (a + b + c + d)
  {
  }

  lemma InFront(a: string, b: string, c: string, d: string, e: string, f: string, g: string)
    ensures a + b + c + d + e + f + g == a + b + (c + d + e + f + g)
  {
  }

  lemma NothingBetween(a: string, b: string)
    ensures a + "" + b == a + b
  {
  }

  /** So a line begins with the mark for a breaking commit, and for another only if its own words do. */
  lemma MarkedIff(c: Commit)
    ensures StartsWith(RenderEntry(c), "- " + "**BREAKING** ") <==>
      c.breaking || StartsWith(RenderEntry(c.(breaking := false)), "- " + "**BREAKING** ")
  {
    var words := BreakingIsMarked(c);
    assert c.breaking ==> c == c.(breaking := true);
    assert !c.breaking ==> c == c.(breaking := false);
    Prefixed("- " + "**BREAKING** ", words);
    hide RenderEntry, StartsWith;
  }

  lemma Prefixed(a: string, b: string)
    ensures StartsWith(a + b, a)
  {
  }

  predicate StartsWith(text: string, prefix: string) {
    |prefix| <= |text| && text[..|prefix|] == prefix
  }

  /** What a reader cares about first comes first: features if there are any, and otherwise fixes. */
  lemma NewsFirst(commits: seq<Commit>)
    ensures (exists c :: c in commits && c.kind == "feat") ==>
        StartsWith(NotesOf(commits), "### " + "Features" + "\n\n")
    ensures (forall c | c in commits :: c.kind != "feat") && (exists c :: c in commits && c.kind == "fix") ==>
      StartsWith(NotesOf(commits), "### " + "Fixes" + "\n\n")
  {
    var order := TypeOrder();
    assert order[0] == "feat" && order[1..][0] == "fix";
    assert HeadingByType("feat") == Own("Features") && HeadingByType("fix") == Own("Fixes");
    hide TypeOrder, HeadingByType, SectionOf;
    SectionHasEntries(commits, "feat");
    SectionHasEntries(commits, "fix");
    BeginsWith(commits, order, "feat", "Features");
    BeginsWith(commits, order[1..], "fix", "Fixes");
    HeadOfNotes(commits, order);
    hide StartsWith, Sections;
  }

  lemma BeginsWith(commits: seq<Commit>, kinds: seq<string>, kind: string, heading: string)
    requires kinds != [] && kinds[0] == kind && HeadingByType(kind) == Own(heading)
    ensures SectionOf(commits, kind) != [] ==>
      StartsWith(Join(Rendered(Sections(commits, kinds)), "\n\n"), "### " + heading + "\n\n")
  {
    HeadOfNotes(commits, kinds);
    var section := Section(kind, SectionOf(commits, kind));
    SectionHead(section, heading);
    hide HeadingByType, Sections, SectionOf, Rendered, Join, RenderSection, StartsWith;
    if SectionOf(commits, kind) != [] {
      StartsThrough(Join(Rendered(Sections(commits, kinds)), "\n\n"), RenderSection(section),
          "### " + heading + "\n\n");
    }
  }

  lemma SectionHead(section: Section, heading: string)
    requires HeadingByType(section.kind) == Own(heading)
    ensures StartsWith(RenderSection(section), "### " + heading + "\n\n")
  {
    hide HeadingByType, Join;
  }

  lemma StartsThrough(text: string, middle: string, prefix: string)
    requires StartsWith(text, middle) && StartsWith(middle, prefix)
    ensures StartsWith(text, prefix)
  {
    assert text[..|prefix|] == text[..|middle|][..|prefix|];
  }

  lemma SectionHasEntries(commits: seq<Commit>, kind: string)
    ensures SectionOf(commits, kind) != [] <==> exists c :: c in commits && c.kind == kind
  {
    var entries := SectionOf(commits, kind);
    assert multiset(entries) == multiset(InType(commits, kind));
    if entries != [] {
      assert entries[0] in multiset(InType(commits, kind));
    }
    if c :| c in commits && c.kind == kind {
      assert c in multiset(entries);
    }
  }

  /** The text of sections in this order begins with the first one that has entries. */
  lemma HeadOfNotes(commits: seq<Commit>, kinds: seq<string>)
    requires kinds != []
    ensures SectionOf(commits, kinds[0]) != [] ==>
      StartsWith(Join(Rendered(Sections(commits, kinds)), "\n\n"),
          RenderSection(Section(kinds[0], SectionOf(commits, kinds[0]))))
    ensures SectionOf(commits, kinds[0]) == [] ==> Sections(commits, kinds) == Sections(commits, kinds[1..])
  {
    if SectionOf(commits, kinds[0]) != [] {
      var first, rest := Section(kinds[0], SectionOf(commits, kinds[0])), Sections(commits, kinds[1..]);
      assert Sections(commits, kinds) == [first] + rest;
      RenderedHead(first, rest);
    }
  }

  lemma {:induction false} RenderedHead(first: Section, rest: seq<Section>)
    ensures Rendered([first] + rest) != [] && Rendered([first] + rest)[0] == RenderSection(first)
    decreases |rest|
  {
    hide RenderSection;
    if rest == [] {
      assert [first] + rest == [first] && [first][..0] == [];
    } else {
      var front := [first] + rest[..|rest| - 1];
      assert ([first] + rest)[..|rest|] == front;
      RenderedHead(first, rest[..|rest| - 1]);
      assert Rendered([first] + rest) == Rendered(front) + [RenderSection(rest[|rest| - 1])];
    }
  }
}
