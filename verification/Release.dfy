/** Deriving the next version from a range of commits, and reading versions back (scripts/release/version.ts). */
module Release {
  import opened Wrappers
  import opened Sorting

  datatype Commit = Commit(hash: string, kind: string, scope: Option<string>, breaking: bool, description: string)

  datatype SemVer = SemVer(major: nat, minor: nat, patch: nat)

  datatype Bump = Major | Minor | Patch

  datatype Rule = Bumps(bump: Bump) | BumpsNothing

  /** What reading a name from an object literal finds: its own entry, something every object inherits, or nothing. */
  datatype Lookup<T> = Own(value: T) | Inherited | Undefined

  /** The names every object literal answers to without listing them. */
  predicate InheritedName(name: string) {
    || name == "constructor" || name == "toString" || name == "toLocaleString" || name == "valueOf"
    || name == "hasOwnProperty" || name == "isPrototypeOf" || name == "propertyIsEnumerable" || name == "__proto__"
    || name == "__defineGetter__" || name == "__defineSetter__" || name == "__lookupGetter__"
        || name == "__lookupSetter__"
  }

  /** The bump table has a row for every type commitlint accepts. */
  function BumpByType(kind: string): Lookup<Rule> {
    if kind == "feat" then Own(Bumps(Minor))
    else if kind == "fix" || kind == "perf" then Own(Bumps(Patch))
    else if kind in ["docs", "chore", "refactor", "test", "build", "ci", "style", "revert"] then Own(BumpsNothing)
    else if InheritedName(kind) then Inherited
    else Undefined
  }

  // ----- the next release

  datatype Release = Release(version: SemVer, bump: Bump, reason: seq<Commit>)

  function Breaking(commits: seq<Commit>): (r: seq<Commit>)
    ensures forall c :: c in r <==> c in commits && c.breaking
  {
    Filter(commits, (c: Commit) => c.breaking)
  }

  function Bumping(commits: seq<Commit>, bump: Bump): (r: seq<Commit>)
    ensures forall c :: c in r <==> c in commits && BumpByType(c.kind) == Own(Bumps(bump))
  {
    Filter(commits, (c: Commit) => BumpByType(c.kind) == Own(Bumps(bump)))
  }

  function DeriveRelease(previous: SemVer, commits: seq<Commit>): Option<Release> {
    var breaking, features, fixes := Breaking(commits), Bumping(commits, Minor), Bumping(commits, Patch);
    if breaking != [] then
      if previous.major >= 1 then Some(Release(SemVer(previous.major + 1, 0, 0), Major, breaking))
      else Some(Release(SemVer(previous.major, previous.minor + 1, 0), Minor, breaking))
    else if features != [] then Some(Release(SemVer(previous.major, previous.minor + 1, 0), Minor, features))
    else if fixes != [] then Some(Release(SemVer(previous.major, previous.minor, previous.patch + 1), Patch, fixes))
    else None
  }

  /** Precedence of versions without pre-release parts: section 11 of Semantic Versioning 2.0.0. */
  predicate Higher(a: SemVer, b: SemVer) {
    || a.major > b.major
    || (a.major == b.major && a.minor > b.minor)
    || (a.major == b.major && a.minor == b.minor && a.patch > b.patch)
  }

  /** The two versions already differ at the bumped component or one before it. */
  predicate DiffersAt(bump: Bump, a: SemVer, b: SemVer) {
    || a.major != b.major
    || (!bump.Major? && a.minor != b.minor)
    || (bump.Patch? && a.patch != b.patch)
  }

  /** A commit that earns a release by itself. */
  predicate Earns(c: Commit) {
    c.breaking || BumpByType(c.kind) == Own(Bumps(Minor)) || BumpByType(c.kind) == Own(Bumps(Patch))
  }

  /**
   * A release is derived exactly when some commit earns one, and it is the lowest version above the previous that
   * differs where it bumps.
   */
  lemma ReleaseIsTheNext(previous: SemVer, commits: seq<Commit>)
    ensures var r := DeriveRelease(previous, commits);
      && (r.Some? <==> exists c :: c in commits && Earns(c))
      && (r.Some? ==>
        && Higher(r.value.version, previous) && DiffersAt(r.value.bump, r.value.version, previous)
        && forall w | Higher(w, previous) && DiffersAt(r.value.bump, w, previous) ::
            w == r.value.version || Higher(w, r.value.version))
  {
    var breaking, features, fixes := Breaking(commits), Bumping(commits, Minor), Bumping(commits, Patch);
    if breaking != [] {
      assert breaking[0] in breaking;
    } else if features != [] {
      assert features[0] in features;
    } else if fixes != [] {
      assert fixes[0] in fixes;
    }
    hide BumpByType;
  }

  /**
   * The bump is the strongest any commit earns, a breaking change counting as minor below 1.0.0; the reason names
   * exactly the commits that earned it.
   */
  lemma BumpIsTheStrongest(previous: SemVer, commits: seq<Commit>)
    requires DeriveRelease(previous, commits).Some?
    ensures var r := DeriveRelease(previous, commits).value;
      var broken := exists c :: c in commits && c.breaking;
      var featured := exists c :: c in commits && BumpByType(c.kind) == Own(Bumps(Minor));
      && (r.bump == Major <==> broken && previous.major >= 1)
      && (r.bump == Patch <==> !broken && !featured)
      && r.reason != [] && (forall c | c in r.reason :: c in commits && Earns(c))
      && (forall c | c in commits ::
          c in r.reason <==> if broken then c.breaking else BumpByType(c.kind) == Own(Bumps(r.bump)))
  {
    var breaking, features, fixes := Breaking(commits), Bumping(commits, Minor), Bumping(commits, Patch);
    assert breaking != [] ==> breaking[0] in breaking;
    assert features != [] ==> features[0] in features;
    hide BumpByType;
  }

  // ----- types without a rule

  predicate TextLeq(a: string, b: string) {
    a == "" || (b != "" && (a[0] < b[0] || (a[0] == b[0] && TextLeq(a[1..], b[1..]))))
  }

  /** Some commit of the range is of this type, and the type is not covered. */
  ghost predicate Lacks(commits: seq<Commit>, covered: string -> bool, kind: string) {
    !covered(kind) && exists c :: c in commits && c.kind == kind
  }

  /** Each type no rule covers, once, in order. */
  method UnclassifiedTypes(commits: seq<Commit>) returns (unknown: seq<string>)
    ensures forall kind :: kind in unknown <==> exists c ::
        c in commits && c.kind == kind && BumpByType(kind).Undefined?
    ensures Distinct(unknown) && SortedBy(unknown, TextLeq)
  {
    var covered := (kind: string) => !BumpByType(kind).Undefined?;
    unknown := MissingKinds(commits, covered);
    assert forall kind :: kind in unknown <==> Lacks(commits, covered, kind);
  }

  /** No row's name is inherited, so the check passes a type without a row exactly when every object answers to it. */
  lemma PassesWithoutRowIff(kind: string)
    ensures BumpByType(kind).Inherited? <==> InheritedName(kind)
  {
    var none := ["docs", "chore", "refactor", "test", "build", "ci", "style", "revert"];
    if kind in none {
      assert |kind| < 9 && kind[0] in {'d', 'c', 'r', 't', 'b', 's'} && kind != "toString";
    }
  }

  /** Of the types the subject pattern accepts, runs of lower-case letters, that is one alone. */
  lemma LowerCaseInherited(kind: string)
    requires forall i | 0 <= i < |kind| :: 'a' <= kind[i] <= 'z'
    ensures InheritedName(kind) <==> kind == "constructor"
  {
    assert "toString"[2] == 'S' && "toLocaleString"[2] == 'L' && "valueOf"[5] == 'O' && "hasOwnProperty"[3] == 'O';
    assert "isPrototypeOf"[2] == 'P' && "propertyIsEnumerable"[8] == 'I' && "__proto__"[0] == '_';
    assert "__defineGetter__"[0] == '_' && "__defineSetter__"[0] == '_';
    assert "__lookupGetter__"[0] == '_' && "__lookupSetter__"[0] == '_';
  }

  /** With nothing reported, every type of the range has a rule exactly when none of them is an inherited name. */
  lemma NothingUnclassifiedIff(commits: seq<Commit>)
    requires forall c | c in commits :: !BumpByType(c.kind).Undefined?
    ensures (forall c | c in commits :: BumpByType(c.kind).Own?) <==> forall c | c in commits :: !InheritedName(c.kind)
  {
    forall c | c in commits
      ensures BumpByType(c.kind).Own? <==> !InheritedName(c.kind)
    {
      PassesWithoutRowIff(c.kind);
    }
  }

  method MissingKinds(commits: seq<Commit>, covered: string -> bool) returns (missing: seq<string>)
    ensures forall kind :: kind in missing <==> Lacks(commits, covered, kind)
    ensures Distinct(missing) && SortedBy(missing, TextLeq)
  {
    var found: seq<string> := [];
    for i := 0 to |commits|
      invariant forall kind :: kind in found <==> Lacks(commits[..i], covered, kind)
      invariant Distinct(found)
    {
      ghost var k: nat := i + 1;
      assert commits[..k] == commits[..i] + [commits[i]];
      LacksOneMore(commits[..i], commits[i], covered);
      hide Lacks;
      if !covered(commits[i].kind) && commits[i].kind !in found {
        found := found + [commits[i].kind];
      }
    }
    assert commits[..|commits|] == commits;
    missing := Sort(found, TextLeq);
    TextOrder();
    SortIsSorted(found, TextLeq);
    DistinctReordered(found, missing);
    assert forall kind :: kind in missing <==> kind in multiset(found);
  }

  lemma LacksOneMore(commits: seq<Commit>, c: Commit, covered: string -> bool)
    ensures forall kind :: Lacks(commits + [c], covered, kind) <==>
        Lacks(commits, covered, kind) || (kind == c.kind && !covered(kind))
  {
    forall kind
      ensures Lacks(commits + [c], covered, kind) <==>
          Lacks(commits, covered, kind) || (kind == c.kind && !covered(kind))
    {
      assert c in commits + [c];
    }
  }

  lemma TextOrder()
    ensures TotalPreorder(TextLeq)
  {
    forall a, b
      ensures TextLeq(a, b) || TextLeq(b, a)
    {
      TextTotal(a, b);
    }
    forall a, b, c | TextLeq(a, b) && TextLeq(b, c)
      ensures TextLeq(a, c)
    {
      TextTransitive(a, b, c);
    }
  }

  lemma {:induction false} TextTotal(a: string, b: string)
    ensures TextLeq(a, b) || TextLeq(b, a)
    ensures TextLeq(a, b) && TextLeq(b, a) ==> a == b
  {
    if a != "" && b != "" {
      TextTotal(a[1..], b[1..]);
      assert a == [a[0]] + a[1..] && b == [b[0]] + b[1..];
    }
  }

  lemma {:induction false} TextTransitive(a: string, b: string, c: string)
    requires TextLeq(a, b) && TextLeq(b, c)
    ensures TextLeq(a, c)
  {
    if a != "" && a[0] == b[0] == c[0] {
      TextTransitive(a[1..], b[1..], c[1..]);
    }
  }

  // ----- in types and numbers

  /**
   * A breaking change bumps major from 1.0.0 on and minor before; else a feature bumps minor, else a fix or perf patch.
   */
  lemma ReleaseInTypes(previous: SemVer, commits: seq<Commit>)
    ensures var r := DeriveRelease(previous, commits);
      var broken := exists c :: c in commits && c.breaking;
      var featured := exists c :: c in commits && c.kind == "feat";
      var fixed := exists c :: c in commits && (c.kind == "fix" || c.kind == "perf");
      && (r.Some? <==> broken || featured || fixed)
      && (r.Some? ==>
            && (r.value.bump.Major? <==> broken && previous.major >= 1)
            && (r.value.bump.Minor? <==> (broken && previous.major == 0) || (!broken && featured))
            && (r.value.bump.Major? ==> r.value.version == SemVer(previous.major + 1, 0, 0))
            && (r.value.bump.Minor? ==> r.value.version == SemVer(previous.major, previous.minor + 1, 0))
            && (r.value.bump.Patch? ==> r.value.version == SemVer(previous.major, previous.minor, previous.patch + 1)))
  {
    ReleaseIsTheNext(previous, commits);
    forall c: Commit
      ensures BumpByType(c.kind) == Own(Bumps(Minor)) <==> c.kind == "feat"
      ensures BumpByType(c.kind) == Own(Bumps(Patch)) <==> c.kind == "fix" || c.kind == "perf"
      ensures BumpByType(c.kind) != Own(Bumps(Major))
    {
    }
    if DeriveRelease(previous, commits).Some? {
      BumpIsTheStrongest(previous, commits);
    }
    hide BumpByType;
  }

  /** Text order is the dictionary's: a prefix comes first, and otherwise the first different character decides. */
  lemma {:induction false} TextLeqIff(a: string, b: string)
    ensures TextLeq(a, b) <==>
      || (|a| <= |b| && a == b[..|a|])
      || exists k | 0 <= k < |a| && k < |b| :: a[..k] == b[..k] && a[k] < b[k]
  {
    if a != "" && b != "" {
      TextLeqIff(a[1..], b[1..]);
      assert a == [a[0]] + a[1..] && b == [b[0]] + b[1..];
      if a[0] == b[0] {
        SameHead(a, b);
      } else if a[0] < b[0] {
        assert a[..0] == b[..0];
      }
    }
  }

  /** Behind an equal first character, the rest decides. */
  lemma SameHead(a: string, b: string)
    requires a != "" && b != "" && a[0] == b[0]
    ensures |a| <= |b| && a == b[..|a|] <==> |a[1..]| <= |b[1..]| && a[1..] == b[1..][..|a[1..]|]
    ensures (exists k | 0 <= k < |a| && k < |b| :: a[..k] == b[..k] && a[k] < b[k]) <==>
      exists k | 0 <= k < |a[1..]| && k < |b[1..]| :: a[1..][..k] == b[1..][..k] && a[1..][k] < b[1..][k]
  {
    assert a == [a[0]] + a[1..] && b == [b[0]] + b[1..];
    if |a| <= |b| {
      assert b[..|a|] == [b[0]] + b[1..][..|a| - 1];
    }
    if k :| 0 <= k < |a| && k < |b| && a[..k] == b[..k] && a[k] < b[k] {
      assert a[1..][..k - 1] == a[..k][1..] && b[1..][..k - 1] == b[..k][1..];
      assert a[1..][k - 1] < b[1..][k - 1];
    }
    if k :| 0 <= k < |a[1..]| && k < |b[1..]| && a[1..][..k] == b[1..][..k] && a[1..][k] < b[1..][k] {
      assert a[..k + 1] == [a[0]] + a[1..][..k] && b[..k + 1] == [b[0]] + b[1..][..k];
      assert a[k + 1] < b[k + 1];
    }
  }
}
