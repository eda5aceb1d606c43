/** When the order of the commits in a range shows in the release notes (scripts/release/notes.ts). */
module RangeOrder {
  import opened Wrappers
  import opened Sorting
  import opened Release
  import opened Notes

  // ----- two tied commits keep the order they came in

  lemma {:induction false} TiedStayInOrder(a: Commit, b: Commit, sorted: seq<Commit>) returns (k: nat)
    requires ByScope(a, b) && ByScope(b, a)
    ensures k <= |sorted|
    ensures Insert(a, Insert(b, sorted, ByScope), ByScope) == sorted[..k] + [a, b] + sorted[k..]
    ensures Insert(b, Insert(a, sorted, ByScope), ByScope) == sorted[..k] + [b, a] + sorted[k..]
  {
    if sorted != [] {
      TieIsShared(a, b, sorted[0]);
    }
    hide Insert, ByScope;
    if sorted == [] || ByScope(a, sorted[0]) {
      k := 0;
      TiedAtFront(a, b, sorted);
      TiedAtFront(b, a, sorted);
      assert sorted[..0] + [a, b] + sorted[0..] == [a, b] + sorted;
      assert sorted[..0] + [b, a] + sorted[0..] == [b, a] + sorted;
    } else {
      var first, rest := sorted[0], sorted[1..];
      assert sorted == [first] + rest;
      var j := TiedStayInOrder(a, b, rest);
      k := j + 1;
      TiedBehind(a, b, first, rest);
      TiedBehind(b, a, first, rest);
      OneFurther(first, rest, j, [a, b]);
      OneFurther(first, rest, j, [b, a]);
    }
  }

  lemma OneFurther(first: Commit, rest: seq<Commit>, j: nat, two: seq<Commit>)
    requires j <= |rest|
    ensures var k, all := j + 1, [first] + rest; all[..k] + two + all[k..] == [first] + (rest[..j] + two + rest[j..])
  {
    var k, all := j + 1, [first] + rest;
    assert all[..k] == [first] + rest[..j] && all[k..] == rest[j..];
  }

  lemma TiedAtFront(a: Commit, b: Commit, sorted: seq<Commit>)
    requires ByScope(a, b) && (sorted == [] || ByScope(b, sorted[0]))
    ensures Insert(a, Insert(b, sorted, ByScope), ByScope) == [a, b] + sorted
  {
    InsertFront(b, sorted, ByScope);
    InsertFront(a, [b] + sorted, ByScope);
    hide ByScope;
    assert [a] + ([b] + sorted) == [a, b] + sorted;
  }

  lemma TiedBehind(a: Commit, b: Commit, first: Commit, rest: seq<Commit>)
    requires !ByScope(a, first) && !ByScope(b, first)
    ensures Insert(a, Insert(b, [first] + rest, ByScope), ByScope) == [first]
        + Insert(a, Insert(b, rest, ByScope), ByScope)
  {
    InsertBehind(b, first, rest, ByScope);
    InsertBehind(a, first, Insert(b, rest, ByScope), ByScope);
  }

  lemma TieIsShared(a: Commit, b: Commit, c: Commit)
    requires ByScope(a, b) && ByScope(b, a)
    ensures ByScope(a, c) <==> ByScope(b, c)
  {
    if ByScope(a, c) {
      ByScopeTransitive(b, a, c);
    }
    if ByScope(b, c) {
      ByScopeTransitive(a, b, c);
    }
  }

  lemma InTypeCons(c: Commit, rest: seq<Commit>, kind: string)
    ensures InType([c] + rest, kind) == if c.kind == kind then [c] + InType(rest, kind) else InType(rest, kind)
  {
    assert ([c] + rest)[1..] == rest;
  }

  /** A range that begins with a commit, in the section of its type and in the others. */
  lemma SectionCons(c: Commit, rest: seq<Commit>, kind: string)
    ensures SectionOf([c] + rest, kind)
      == if c.kind == kind then Insert(c, SectionOf(rest, kind), ByScope) else SectionOf(rest, kind)
  {
    InTypeCons(c, rest, kind);
    SortCons(c, InType(rest, kind), ByScope);
    hide InType, ByScope;
  }

  /** A range that begins with two commits of one type. */
  lemma TiedSection(a: Commit, b: Commit, rest: seq<Commit>)
    requires a.kind == b.kind
    ensures SectionOf([a, b] + rest, a.kind) == Insert(a, Insert(b, SectionOf(rest, a.kind), ByScope), ByScope)
    ensures forall kind | kind != a.kind :: SectionOf([a, b] + rest, kind) == SectionOf(rest, kind)
  {
    assert [a, b] + rest == [a] + ([b] + rest);
    forall kind
      ensures SectionOf([a, b] + rest, kind)
        == if a.kind == kind then Insert(a, SectionOf([b] + rest, kind), ByScope) else SectionOf([b] + rest, kind)
      ensures SectionOf([b] + rest, kind)
        == if b.kind == kind then Insert(b, SectionOf(rest, kind), ByScope) else SectionOf(rest, kind)
    {
      SectionCons(a, [b] + rest, kind);
      SectionCons(b, rest, kind);
    }
    hide SectionOf, ByScope, Insert;
  }

  /** Swapping two tied commits swaps their entries, and does nothing else. */
  lemma SwapInSection(a: Commit, b: Commit, rest: seq<Commit>) returns (before: seq<Commit>, after: seq<Commit>)
    requires Tie(a, b)
    ensures SectionOf([a, b] + rest, a.kind) == before + [a, b] + after
    ensures SectionOf([b, a] + rest, a.kind) == before + [b, a] + after
    ensures forall c | c in before + after :: c in rest
  {
    TextTotal(ScopeText(a), ScopeText(a));
    TextTotal(a.description, a.description);
    var sorted := SectionOf(rest, a.kind);
    var k := TiedStayInOrder(a, b, sorted);
    before, after := sorted[..k], sorted[k..];
    TiedSection(a, b, rest);
    TiedSection(b, a, rest);
    SectionIsSorted(rest, a.kind);
  }

  // ----- sections

  function EntriesFor(sections: seq<Section>, kind: string): seq<Commit> {
    if sections == [] then []
    else if sections[0].kind == kind then sections[0].entries
    else EntriesFor(sections[1..], kind)
  }

  /** From the sections of distinct types each type's entries can be read back. */
  lemma {:induction false} SectionsDetermine(commits: seq<Commit>, kinds: seq<string>, kind: string)
    requires Distinct(kinds)
    ensures EntriesFor(Sections(commits, kinds), kind) == if kind in kinds then SectionOf(commits, kind) else []
  {
    if kinds != [] {
      hide SectionOf, Sections;
      var first, rest := kinds[0], kinds[1..];
      assert kinds == [first] + rest;
      SectionsDetermine(commits, rest, kind);
      SectionsCons(commits, first, rest);
      var entries, tail := SectionOf(commits, first), Sections(commits, rest);
      assert ([Section(first, entries)] + tail)[1..] == tail && [] + tail == tail;
    }
  }

  /** The range without one occurrence of each of two different commits. */
  lemma TakeOut(commits: seq<Commit>, a: Commit, b: Commit) returns (rest: seq<Commit>)
    requires a in commits && b in commits && a != b
    ensures multiset([a, b] + rest) == multiset(commits) && multiset([b, a] + rest) == multiset(commits)
    ensures forall c | c in rest :: c in commits
  {
    var left := Sorting.Without(commits, a);
    assert b in multiset(commits);
    assert b in multiset(left);
    rest := Sorting.Without(left, b);
    assert multiset([a, b] + rest) == multiset{a} + (multiset{b} + multiset(rest));
    assert multiset([b, a] + rest) == multiset{b} + (multiset{a} + multiset(rest));
    forall c | c in rest
      ensures c in commits
    {
      assert c in multiset(rest) && c in multiset(commits);
    }
  }

  /** The sections are the same for every order of the range exactly when no two commits of a rendered type tie. */
  lemma OrderShowsInSectionsIff(commits: seq<Commit>)
    ensures (forall others | multiset(others) == multiset(commits) ::
               Sections(others, TypeOrder()) == Sections(commits, TypeOrder()))
      <==> forall a, b | a in commits && b in commits && a.kind in TypeOrder() :: !Tie(a, b)
  {
    hide Sections, TypeOrder;
    if a, b :| a in commits && b in commits && a.kind in TypeOrder() && Tie(a, b) {
      var rest := TakeOut(commits, a, b);
      SwappedSectionsDiffer(a, b, rest, TypeOrder());
    } else {
      forall others | multiset(others) == multiset(commits)
        ensures Sections(others, TypeOrder()) == Sections(commits, TypeOrder())
      {
        RangeDeterminesSections(commits, others, TypeOrder());
      }
    }
  }

  lemma SwappedSectionsDiffer(a: Commit, b: Commit, rest: seq<Commit>, kinds: seq<string>)
    requires Tie(a, b) && a.kind in kinds && kinds == TypeOrder()
    ensures Sections([a, b] + rest, kinds) != Sections([b, a] + rest, kinds)
  {
    TypesDistinct();
    var before, after := SwapInSection(a, b, rest);
    SectionsDetermine([a, b] + rest, kinds, a.kind);
    SectionsDetermine([b, a] + rest, kinds, a.kind);
    hide SectionOf, Sections, TypeOrder, EntriesFor;
    var k := |before|;
    assert (before + [a, b] + after)[k] == a && (before + [b, a] + after)[k] == b;
  }

  // ----- the text

  /** Two tied commits whose lines in the notes differ: by the mark, by an empty scope, or by the short hash. */
  ghost predicate ShowsTie(a: Commit, b: Commit) {
    a.kind in TypeOrder() && Tie(a, b) && RenderEntry(a) != RenderEntry(b)
  }

  /** No field holds a line end; the pattern a commit's subject must match sees to it. */
  predicate OneLine(c: Commit) {
    '\n' !in c.hash && '\n' !in c.description && (c.scope.Some? ==> '\n' !in c.scope.value)
  }

  lemma EntryIsOneLine(c: Commit)
    requires OneLine(c)
    ensures '\n' !in RenderEntry(c)
  {
  }

  /** Commits that tie are rendered alike. */
  ghost predicate TiesLookAlike(xs: seq<Commit>) {
    forall a, b | a in xs && b in xs && ByScope(a, b) && ByScope(b, a) :: RenderEntry(a) == RenderEntry(b)
  }

  /** Where tied commits render alike, two orders of one section have the same lines. */
  lemma {:induction false} SameLines(xs: seq<Commit>, ys: seq<Commit>)
    requires multiset(xs) == multiset(ys) && SortedBy(xs, ByScope) && SortedBy(ys, ByScope) && TiesLookAlike(xs)
    ensures Lines(xs) == Lines(ys)
  {
    if xs == [] {
      assert |multiset(ys)| == 0;
    } else {
      var k := FirstFound(xs, ys);
      FrontLooksAlike(xs, ys, k);
      SortedWithout(ys, k);
      SortedTail(xs);
      hide RenderEntry, ByScope, SortedBy, TiesLookAlike;
      SameLines(xs[1..], ys[..k] + ys[k + 1..]);
      LinesWithout(ys, k);
      assert Lines(xs) == [RenderEntry(xs[0])] + Lines(xs[1..]);
    }
  }

  /** Whatever stands before the smallest element in another order ties with it. */
  lemma FrontLooksAlike(xs: seq<Commit>, ys: seq<Commit>, k: nat)
    requires multiset(xs) == multiset(ys) && SortedBy(xs, ByScope) && SortedBy(ys, ByScope) && TiesLookAlike(xs)
    requires xs != [] && k < |ys| && ys[k] == xs[0]
    ensures forall j | 0 <= j <= k :: RenderEntry(ys[j]) == RenderEntry(ys[k])
  {
    forall j | 0 <= j < k
      ensures RenderEntry(ys[j]) == RenderEntry(ys[k])
    {
      assert ys[j] in multiset(ys);
      assert ys[j] in xs;
      SmallestFirst(xs, ys[j], ByScope);
      assert ByScope(ys[j], ys[k]);
      hide RenderEntry, ByScope;
    }
  }

  lemma SortedTail(xs: seq<Commit>)
    requires xs != [] && SortedBy(xs, ByScope) && TiesLookAlike(xs)
    ensures SortedBy(xs[1..], ByScope) && TiesLookAlike(xs[1..])
  {
    hide ByScope, RenderEntry;
    assert forall c | c in xs[1..] :: c in xs;
  }

  lemma SortedWithout(ys: seq<Commit>, k: nat)
    requires k < |ys| && SortedBy(ys, ByScope)
    ensures SortedBy(ys[..k] + ys[k + 1..], ByScope)
  {
    hide ByScope;
    var rest := ys[..k] + ys[k + 1..];
    forall i, j | 0 <= i < j < |rest|
      ensures ByScope(rest[i], rest[j])
    {
      var m, n := if i < k then i else i + 1, if j < k then j else j + 1;
      assert rest[i] == ys[m] && rest[j] == ys[n];
    }
  }

  lemma LinesWithout(ys: seq<Commit>, k: nat)
    requires k < |ys| && forall j | 0 <= j <= k :: RenderEntry(ys[j]) == RenderEntry(ys[k])
    ensures Lines(ys) == [RenderEntry(ys[k])] + Lines(ys[..k] + ys[k + 1..])
  {
    hide RenderEntry;
    var rest := ys[..k] + ys[k + 1..];
    forall i | 0 <= i < |ys|
      ensures Lines(ys)[i] == ([RenderEntry(ys[k])] + Lines(rest))[i]
    {
      if 0 < i <= k {
        assert rest[i - 1] == ys[i - 1];
      } else if i > k {
        assert rest[i - 1] == ys[i];
      }
    }
  }

  /** Then the rendered sections are the same, type by type. */
  lemma {:induction false} SameSectionTexts(commits: seq<Commit>, others: seq<Commit>, kinds: seq<string>)
    requires multiset(commits) == multiset(others)
    requires forall a, b | a in commits && b in commits && a.kind in kinds && Tie(a, b) ::
        RenderEntry(a) == RenderEntry(b)
    ensures Rendered(Sections(commits, kinds)) == Rendered(Sections(others, kinds))
    decreases |kinds|
  {
    if kinds != [] {
      var n := |kinds| - 1;
      var front, last := kinds[..n], kinds[n];
      assert kinds == front + [last];
      SameSectionTexts(commits, others, front);
      SameSectionLines(commits, others, last);
      RenderedStep(commits, kinds, n);
      RenderedStep(others, kinds, n);
      assert kinds[..|kinds|] == kinds;
      hide Rendered, Sections, SectionOf, Lines, RenderEntry;
    }
  }

  lemma SameSectionLines(commits: seq<Commit>, others: seq<Commit>, kind: string)
    requires multiset(commits) == multiset(others)
    requires forall a, b | a in commits && b in commits && a.kind == kind && Tie(a, b) ::
        RenderEntry(a) == RenderEntry(b)
    ensures Lines(SectionOf(commits, kind)) == Lines(SectionOf(others, kind))
  {
    var xs, ys := SectionOf(commits, kind), SectionOf(others, kind);
    SectionIsSorted(commits, kind);
    SectionIsSorted(others, kind);
    forall c
      ensures multiset(xs)[c] == multiset(ys)[c]
    {
      FilterCounts(commits, kind, c);
      FilterCounts(others, kind, c);
    }
    hide SectionOf, RenderEntry;
    assert TiesLookAlike(xs) by {
      forall a, b | a in xs && b in xs && ByScope(a, b) && ByScope(b, a)
        ensures RenderEntry(a) == RenderEntry(b)
      {
        TiesAreTies(a, b);
      }
    }
    SameLines(xs, ys);
  }

  // ----- a text shows which lines it was made of

  lemma SamePrefix(a: string, b: string, rest: string, more: string)
    requires '\n' !in a && '\n' !in b && a + "\n" + rest == b + "\n" + more
    ensures a == b && rest == more
  {
    var s := a + "\n" + rest;
    assert s[|a|] == '\n' && s[|b|] == '\n';
    assert forall j | 0 <= j < |a| :: s[j] == a[j] && s[j] in a;
    assert forall j | 0 <= j < |b| :: s[j] == b[j] && s[j] in b;
    assert |a| == |b|;
    assert s[..|a|] == a && s[..|b|] == b;
    assert s[|a| + 1..] == rest && s[|b| + 1..] == more;
  }

  lemma {:induction false} JoinedLinesShow(xs: seq<string>, ys: seq<string>)
    requires |xs| == |ys| && Join(xs, "\n") == Join(ys, "\n")
    requires (forall x | x in xs :: '\n' !in x) && (forall y | y in ys :: '\n' !in y)
    ensures xs == ys
  {
    if |xs| > 1 {
      SamePrefix(xs[0], ys[0], Join(xs[1..], "\n"), Join(ys[1..], "\n"));
      JoinedLinesShow(xs[1..], ys[1..]);
      assert xs == [xs[0]] + xs[1..] && ys == [ys[0]] + ys[1..];
    }
  }

  lemma SameEnds(p: string, x: string, y: string)
    requires p + x == p + y
    ensures x == y
  {
    assert (p + x)[|p|..] == x && (p + y)[|p|..] == y;
  }

  lemma SameFront(x: string, y: string, p: string)
    requires x + p == y + p
    ensures x == y
  {
    assert |x| == |y|;
    assert (x + p)[..|x|] == x && (y + p)[..|y|] == y;
  }

  /** One part of a joined text changed: the text changed. */
  lemma {:induction false} OnePartShows(parts: seq<string>, m: nat, y: string, separator: string)
    requires m < |parts| && Join(parts, separator) == Join(parts[m := y], separator)
    ensures parts[m] == y
  {
    if |parts| > 1 {
      var changed := parts[m := y];
      var tail := Join(parts[1..], separator);
      if m == 0 {
        assert changed[1..] == parts[1..];
        assert parts[0] + separator + tail == parts[0] + (separator + tail);
        assert y + separator + tail == y + (separator + tail);
        SameFront(parts[0], y, separator + tail);
      } else {
        assert changed[1..] == parts[1..][m - 1 := y];
        SameEnds(parts[0] + separator, tail, Join(changed[1..], separator));
        OnePartShows(parts[1..], m - 1, y, separator);
      }
    }
  }

  lemma SectionsCons(commits: seq<Commit>, first: string, rest: seq<string>)
    ensures Sections(commits, [first] + rest)
      == (if SectionOf(commits, first) == [] then [] else [Section(first, SectionOf(commits, first))])
          + Sections(commits, rest)
  {
    hide SectionOf;
    assert ([first] + rest)[0] == first && ([first] + rest)[1..] == rest;
  }

  /** Where a section of a type stands among all sections, if it is not empty. */
  lemma {:induction false} SectionStands(commits: seq<Commit>, others: seq<Commit>, kinds: seq<string>, kind: string)
    returns (m: nat)
    requires Distinct(kinds) && kind in kinds && SectionOf(commits, kind) != [] && SectionOf(others, kind) != []
    requires forall k | k in kinds && k != kind :: SectionOf(others, k) == SectionOf(commits, k)
    ensures m < |Sections(commits, kinds)| && Sections(commits, kinds)[m] == Section(kind, SectionOf(commits, kind))
    ensures Sections(others, kinds) == Sections(commits, kinds)[m := Section(kind, SectionOf(others, kind))]
  {
    hide SectionOf, Sections;
    var first, rest := kinds[0], kinds[1..];
    assert kinds == [first] + rest;
    SectionsCons(commits, first, rest);
    SectionsCons(others, first, rest);
    var tail := Sections(commits, rest);
    if first == kind {
      m := 0;
      SameSections(commits, others, rest);
    } else {
      var j := SectionStands(commits, others, rest, kind);
      var ahead := if SectionOf(commits, first) == [] then [] else [Section(first, SectionOf(commits, first))];
      m := |ahead| + j;
      UpdateBehind(ahead, tail, j, Section(kind, SectionOf(others, kind)));
    }
  }

  lemma UpdateBehind(ahead: seq<Section>, tail: seq<Section>, j: nat, section: Section)
    requires j < |tail|
    ensures ahead + tail[j := section] == (ahead + tail)[|ahead| + j := section]
  {
  }

  lemma {:induction false} SameSections(commits: seq<Commit>, others: seq<Commit>, kinds: seq<string>)
    requires forall k | k in kinds :: SectionOf(others, k) == SectionOf(commits, k)
    ensures Sections(others, kinds) == Sections(commits, kinds)
  {
    hide SectionOf;
    if kinds != [] {
      SameSections(commits, others, kinds[1..]);
    }
  }

  lemma {:induction false} RenderedAt(sections: seq<Section>)
    ensures |Rendered(sections)| == |sections|
    ensures forall i | 0 <= i < |sections| :: Rendered(sections)[i] == RenderSection(sections[i])
    decreases |sections|
  {
    if sections != [] {
      RenderedAt(sections[..|sections| - 1]);
    }
  }

  /** Two commits of a rendered type that tie and look different: swapped, they give a different text. */
  lemma SwappedTextsDiffer(a: Commit, b: Commit, rest: seq<Commit>)
    requires ShowsTie(a, b) && OneLine(a) && OneLine(b) && forall c | c in rest :: OneLine(c)
    ensures NotesOf([a, b] + rest) != NotesOf([b, a] + rest)
  {
    var p, q := [a, b] + rest, [b, a] + rest;
    TypesDistinct();
    assert a.kind == b.kind;
    var before, after := SwapInSection(a, b, rest);
    TiedSection(a, b, rest);
    TiedSection(b, a, rest);
    SwappedSectionTextsDiffer(a, b, before, after);
    hide SectionOf, TypeOrder, RenderEntry, OneLine, Tie, RenderSection, NotesOf;
    OneSectionShows(p, q, a.kind);
  }

  /** Ranges that differ in the text of one section, and in no other, differ in their notes. */
  lemma OneSectionShows(p: seq<Commit>, q: seq<Commit>, kind: string)
    requires kind in TypeOrder() && Distinct(TypeOrder()) && SectionOf(p, kind) != [] && SectionOf(q, kind) != []
    requires forall k | k != kind :: SectionOf(q, k) == SectionOf(p, k)
    requires RenderSection(Section(kind, SectionOf(p, kind))) != RenderSection(Section(kind, SectionOf(q, kind)))
    ensures NotesOf(p) != NotesOf(q)
  {
    hide SectionOf, Sections, TypeOrder, RenderSection, Rendered, Join;
    var kinds := TypeOrder();
    var m := SectionStands(p, q, kinds, kind);
    RenderedAt(Sections(p, kinds));
    RenderedAt(Sections(q, kinds));
    var x, y := Rendered(Sections(p, kinds)), RenderSection(Section(kind, SectionOf(q, kind)));
    assert Rendered(Sections(q, kinds)) == x[m := y];
    if Join(x, "\n\n") == Join(x[m := y], "\n\n") {
      OnePartShows(x, m, y, "\n\n");
    }
  }

  lemma SwappedSectionTextsDiffer(a: Commit, b: Commit, before: seq<Commit>, after: seq<Commit>)
    requires RenderEntry(a) != RenderEntry(b) && OneLine(a) && OneLine(b) && forall c | c in before + after ::
        OneLine(c)
    ensures RenderSection(Section(a.kind, before + [a, b] + after)) != RenderSection(Section(a.kind,
        before + [b, a] + after))
  {
    var xs, ys := before + [a, b] + after, before + [b, a] + after;
    SwappedLinesDiffer(a, b, before, after);
    HeadedTexts(a.kind, xs);
    HeadedTexts(a.kind, ys);
    hide RenderSection, Join, Lines, RenderEntry, OneLine;
    var head := HeadOf(a.kind);
    if head + Join(Lines(xs), "\n") == head + Join(Lines(ys), "\n") {
      SameEnds(head, Join(Lines(xs), "\n"), Join(Lines(ys), "\n"));
      JoinedLinesShow(Lines(xs), Lines(ys));
    }
  }

  function HeadOf(kind: string): string {
    "### " + (if HeadingByType(kind).Own? then HeadingByType(kind).value else "undefined") + "\n\n"
  }

  lemma HeadedTexts(kind: string, entries: seq<Commit>)
    ensures RenderSection(Section(kind, entries)) == HeadOf(kind) + Join(Lines(entries), "\n")
  {
    hide HeadingByType, Join, Lines;
  }

  lemma SwappedLinesDiffer(a: Commit, b: Commit, before: seq<Commit>, after: seq<Commit>)
    requires RenderEntry(a) != RenderEntry(b) && OneLine(a) && OneLine(b) && forall c | c in before + after ::
        OneLine(c)
    ensures var xs, ys := Lines(before + [a, b] + after), Lines(before + [b, a] + after);
      && |xs| == |ys| && xs != ys && (forall x | x in xs :: '\n' !in x) && (forall y | y in ys :: '\n' !in y)
  {
    hide RenderEntry;
    NoLineEnds(before + [a, b] + after);
    NoLineEnds(before + [b, a] + after);
    var k := |before|;
    assert Lines(before + [a, b] + after)[k] == RenderEntry(a);
    assert Lines(before + [b, a] + after)[k] == RenderEntry(b);
  }

  lemma NoLineEnds(entries: seq<Commit>)
    requires forall c | c in entries :: OneLine(c)
    ensures forall x | x in Lines(entries) :: '\n' !in x
  {
    hide RenderEntry, OneLine;
    forall i | 0 <= i < |entries|
      ensures '\n' !in Lines(entries)[i]
    {
      EntryIsOneLine(entries[i]);
    }
  }

  /**
   * The notes are the same text for every order of the range exactly when no two commits of a rendered type agree in
   * scope and description and differ in their line.
   */
  lemma OrderShowsInTextIff(commits: seq<Commit>)
    requires forall c | c in commits :: OneLine(c)
    ensures (forall others | multiset(others) == multiset(commits) :: NotesOf(others) == NotesOf(commits))
      <==> forall a, b | a in commits && b in commits :: !ShowsTie(a, b)
  {
    hide Sections, TypeOrder, OneLine, NotesOf, Tie, RenderEntry;
    if a, b :| a in commits && b in commits && ShowsTie(a, b) {
      var rest := TakeOut(commits, a, b);
      SwappedTextsDiffer(a, b, rest);
    } else {
      forall others | multiset(others) == multiset(commits)
        ensures NotesOf(others) == NotesOf(commits)
      {
        NoTieNoDifference(commits, others);
      }
    }
  }

  lemma NoTieNoDifference(commits: seq<Commit>, others: seq<Commit>)
    requires multiset(others) == multiset(commits)
    requires forall a, b | a in commits && b in commits :: !ShowsTie(a, b)
    ensures NotesOf(others) == NotesOf(commits)
  {
    hide RenderEntry, Tie;
    forall a, b | a in commits && b in commits && a.kind in TypeOrder() && Tie(a, b)
      ensures RenderEntry(a) == RenderEntry(b)
    {
      assert !ShowsTie(a, b);
    }
    hide TypeOrder, Sections, Rendered;
    SameSectionTexts(commits, others, TypeOrder());
  }

  lemma ShortEntry(hash: string)
    requires |hash| == 2
    ensures RenderEntry(Commit(hash, "feat", None, false, "x")) == "- x (" + hash + ")"
  {
  }

  /** Two features described in the same words: the range says which commits are listed, and not in which order. */
  lemma TwoOrdersTwoTexts()
    ensures var a, b := Commit("a1", "feat", None, false, "x"), Commit("b2", "feat", None, false, "x");
      multiset([a, b]) == multiset([b, a]) && NotesOf([a, b]) != NotesOf([b, a])
  {
    var a, b := Commit("a1", "feat", None, false, "x"), Commit("b2", "feat", None, false, "x");
    ShortEntry("a1");
    ShortEntry("b2");
    HeadingIff("feat");
    hide RenderEntry, TypeOrder, NotesOf;
    assert RenderEntry(a)[5] == 'a' && RenderEntry(b)[5] == 'b';
    assert a.hash[0] == 'a' && b.hash[0] == 'b';
    SwappedTextsDiffer(a, b, []);
    assert [a, b] + [] == [a, b] && [b, a] + [] == [b, a];
  }
}
