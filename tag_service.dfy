/**
 * The tag service of the backend: tag CRUD, picture/tag associations and the
 * advanced tag search, over an abstract view of the three SQLite tables
 * (`pictures` by path, `tags` by name, `picture_tags` as a set of pairs).
 *
 * The search is modelled twice. SearchResult, CollectGroups and IntersectGroups
 * are the intended selection: one sub-query per non-empty group, intersected,
 * then restricted to stored pictures. SearchAsWritten follows the text the
 * service really sends, which SQLite rejects for two or more groups.
 */
module TagService {
  import opened Text
  import opened Models

  /** The non-key columns of a `tags` row. */
  datatype TagInfo = TagInfo(tagType: string, color: string)

  datatype TagError =
    | EmptyName
    | InvalidType(tagType: string)
    | AlreadyExists(name: string)
    | TagNotFound(name: string)
    | PictureNotFound(path: string)

  datatype Status = Ok | Err(error: TagError)

  /** The three tables. */
  datatype Store = Store(pictures: set<string>, tags: map<string, TagInfo>, links: set<PictureTag>)

  /** Referential integrity: every association names a stored picture and an existing tag. */
  predicate Consistent(st: Store) {
    forall l :: l in st.links ==> l.picturePath in st.pictures && l.tagName in st.tags
  }

  predicate IsValidType(t: string) {
    t in TagTypes
  }

  function TagRow(st: Store, name: string): Tag
    requires name in st.tags
  {
    Tag(name, st.tags[name].tagType, st.tags[name].color)
  }

  // ---------------------------------------------------------------------------
  // Tag and association operations, as transitions of the store
  // ---------------------------------------------------------------------------

  /** CreateTag: trims the name, validates it and the type, refuses a duplicate name. */
  function CreateTagStep(st: Store, name: string, tagType: string, color: string): (r: (Status, Store))
    ensures var n := TrimSpace(name);
      r.0 == (if n == [] then Err(EmptyName)
              else if !IsValidType(tagType) then Err(InvalidType(tagType))
              else if n in st.tags then Err(AlreadyExists(n))
              else Ok)
    ensures r.0.Err? ==> r.1 == st
    ensures r.0.Ok? ==> var n := TrimSpace(name);
      && IsTrimmed(n) && n != []
      && r.1.tags.Keys == st.tags.Keys + {n}
      && r.1.tags[n] == TagInfo(tagType, color)
      && (forall k :: k in st.tags ==> r.1.tags[k] == st.tags[k])
      && r.1.pictures == st.pictures && r.1.links == st.links
    ensures Consistent(st) ==> Consistent(r.1)
  {
    var n := TrimSpace(name);
    if n == [] then (Err(EmptyName), st)
    else if !IsValidType(tagType) then (Err(InvalidType(tagType)), st)
    else if n in st.tags then (Err(AlreadyExists(n)), st)
    else (Ok, st.(tags := st.tags[n := TagInfo(tagType, color)]))
  }

  /** UpdateTag: the name must exist; type and colour are overwritten, the type unchecked. */
  function UpdateTagStep(st: Store, name: string, tagType: string, color: string): (r: (Status, Store))
    ensures r.0 == (if name in st.tags then Ok else Err(TagNotFound(name)))
    ensures r.0.Err? ==> r.1 == st
    ensures r.0.Ok? ==>
      && r.1.tags.Keys == st.tags.Keys
      && r.1.tags[name] == TagInfo(tagType, color)
      && (forall k :: k in st.tags && k != name ==> r.1.tags[k] == st.tags[k])
      && r.1.pictures == st.pictures && r.1.links == st.links
    ensures Consistent(st) ==> Consistent(r.1)
  {
    if name !in st.tags then (Err(TagNotFound(name)), st)
    else (Ok, st.(tags := st.tags[name := TagInfo(tagType, color)]))
  }

  /**
   * DeleteTag: first deletes every association of the name, then the tag row;
   * reports "not found" when no tag row was removed, after the associations
   * are already gone.
   */
  function DeleteTagStep(st: Store, name: string): (r: (Status, Store))
    ensures r.0 == (if name in st.tags then Ok else Err(TagNotFound(name)))
    ensures r.1.tags.Keys == st.tags.Keys - {name}
    ensures forall k :: k in r.1.tags ==> r.1.tags[k] == st.tags[k]
    ensures forall l :: l in r.1.links <==> l in st.links && l.tagName != name
    ensures r.1.pictures == st.pictures
    ensures Consistent(st) ==> Consistent(r.1)
  {
    var links := set l | l in st.links && l.tagName != name;
    var status := if name in st.tags then Ok else Err(TagNotFound(name));
    (status, Store(st.pictures, st.tags - {name}, links))
  }

  /** AddTagToPicture: both ends must exist; an existing pair is left as it is. */
  function AddTagToPictureStep(st: Store, path: string, name: string): (r: (Status, Store))
    ensures r.0 == (if path !in st.pictures then Err(PictureNotFound(path))
                    else if name !in st.tags then Err(TagNotFound(name))
                    else Ok)
    ensures r.0.Err? ==> r.1 == st
    ensures r.0.Ok? ==> r.1.links == st.links + {PictureTag(path, name)}
    ensures r.1.pictures == st.pictures && r.1.tags == st.tags
    ensures Consistent(st) ==> Consistent(r.1)
  {
    if path !in st.pictures then (Err(PictureNotFound(path)), st)
    else if name !in st.tags then (Err(TagNotFound(name)), st)
    else if PictureTag(path, name) in st.links then (Ok, st)
    else (Ok, st.(links := st.links + {PictureTag(path, name)}))
  }

  /** RemoveTagFromPicture: succeeds whether or not the pair exists. */
  function RemoveTagFromPictureStep(st: Store, path: string, name: string): (r: (Status, Store))
    ensures r.0 == Ok
    ensures forall l :: l in r.1.links <==> l in st.links && l != PictureTag(path, name)
    ensures r.1.pictures == st.pictures && r.1.tags == st.tags
    ensures Consistent(st) ==> Consistent(r.1)
  {
    (Ok, st.(links := st.links - {PictureTag(path, name)}))
  }

  /** The number of `picture_tags` rows that carry the name. */
  function PictureCount(links: set<PictureTag>, name: string): nat {
    |set l | l in links && l.tagName == name|
  }

  /** A second, identical CreateTag after a successful one is refused and changes nothing. */
  lemma CreateTagTwice(st: Store, name: string, tagType: string, color: string)
    requires CreateTagStep(st, name, tagType, color).0.Ok?
    ensures var st1 := CreateTagStep(st, name, tagType, color).1;
      CreateTagStep(st1, name, tagType, color) == (Err(AlreadyExists(TrimSpace(name))), st1)
  {
  }

  /** The name is compared after trimming: padding a taken name does not make it new. */
  lemma {:induction false} CreateTagPaddedDuplicate(st: Store, name: string, tagType: string, color: string)
    requires name in st.tags && IsTrimmed(name) && name != [] && IsValidType(tagType)
    ensures CreateTagStep(st, " " + name + "\t", tagType, color).0 == Err(AlreadyExists(name))
  {
    var padded := " " + name + "\t";
    assert padded[1..] == name + "\t";
    assert TrimLeft(name + "\t") == name + "\t";
    assert TrimLeft(padded) == name + "\t";
    assert (name + "\t")[..|name + "\t"| - 1] == name;
    assert TrimRight(name) == name;
    assert TrimSpace(padded) == name;
  }

  /** Adding an association twice is adding it once. */
  lemma AddTagToPictureIdempotent(st: Store, path: string, name: string)
    ensures var st1 := AddTagToPictureStep(st, path, name);
      AddTagToPictureStep(st1.1, path, name) == (st1.0, st1.1)
  {
  }

  /** Removing an association twice is removing it once. */
  lemma RemoveTagFromPictureIdempotent(st: Store, path: string, name: string)
    ensures var st1 := RemoveTagFromPictureStep(st, path, name).1;
      RemoveTagFromPictureStep(st1, path, name).1 == st1
  {
  }

  /** After DeleteTag no picture carries the name any more, whatever the status. */
  lemma {:induction false} DeleteTagLeavesNoAssociation(st: Store, name: string)
    ensures PictureCount(DeleteTagStep(st, name).1.links, name) == 0
  {
    var links := DeleteTagStep(st, name).1.links;
    assert (set l | l in links && l.tagName == name) == {};
  }

  /** UpdateTag accepts a type CreateTag would refuse. */
  lemma UpdateTagSkipsTypeCheck(st: Store, name: string, color: string)
    requires name in st.tags
    ensures UpdateTagStep(st, name, "banana", color).0 == Ok
    ensures !IsValidType("banana")
  {
  }

  // ---------------------------------------------------------------------------
  // Advanced search
  // ---------------------------------------------------------------------------

  /** One group of the search: tag names and the operator string sent by the client. */
  datatype TagCriteria = TagCriteria(tags: seq<string>, operator: string)

  /** The fields of a search, one per tag type. */
  datatype Slot = Persons | Locations | Events | Others

  /** The four groups, one per tag type. */
  datatype SearchCriteria = SearchCriteria(
    persons: TagCriteria,
    locations: TagCriteria,
    events: TagCriteria,
    others: TagCriteria)
  {
    function Group(s: Slot): TagCriteria {
      match s
      case Persons => persons
      case Locations => locations
      case Events => events
      case Others => others
    }

    function WithGroup(s: Slot, g: TagCriteria): (r: SearchCriteria)
      ensures r.Group(s) == g
      ensures forall u :: u != s ==> r.Group(u) == Group(u)
    {
      match s
      case Persons => this.(persons := g)
      case Locations => this.(locations := g)
      case Events => this.(events := g)
      case Others => this.(others := g)
    }
  }

  /** `strings.ToUpper(op) == "OR"`. */
  predicate IsOrOperator(op: string) {
    ToUpper(op) == "OR"
  }

  /** Exactly the four spellings of "or" select the any-of sub-query; every other string means all-of. */
  lemma OrOperatorSpellings(op: string)
    ensures IsOrOperator(op) <==> op in {"OR", "Or", "oR", "or"}
  {
    if IsOrOperator(op) {
      assert |op| == 2;
      assert UpperChar(op[0]) == 'O' && UpperChar(op[1]) == 'R';
      assert op[0] == 'O' || op[0] == 'o';
      assert op[1] == 'R' || op[1] == 'r';
      assert op == [op[0], op[1]];
    } else {
      assert ToUpper("OR") == "OR" && ToUpper("Or") == "OR";
      assert ToUpper("oR") == "OR" && ToUpper("or") == "OR";
    }
  }

  /** The group's names the picture carries: what COUNT(DISTINCT tag_name) counts. */
  function TagsCarried(links: set<PictureTag>, path: string, tags: seq<string>): set<string> {
    set t | t in tags && PictureTag(path, t) in links
  }

  /**
   * Whether one non-empty group's sub-query selects the picture: any-of for an
   * "or" operator or a single tag, otherwise the distinct carried names must
   * number `len(tags)`.
   */
  predicate GroupMatches(links: set<PictureTag>, path: string, g: TagCriteria) {
    if IsOrOperator(g.operator) || |g.tags| == 1 then TagsCarried(links, path, g.tags) != {}
    else |TagsCarried(links, path, g.tags)| == |g.tags|
  }

  /** An empty group does not constrain. */
  predicate Satisfies(links: set<PictureTag>, path: string, g: TagCriteria) {
    |g.tags| == 0 || GroupMatches(links, path, g)
  }

  /** The search formula: every group is satisfied. */
  predicate Matches(links: set<PictureTag>, path: string, c: SearchCriteria) {
    && Satisfies(links, path, c.persons)
    && Satisfies(links, path, c.locations)
    && Satisfies(links, path, c.events)
    && Satisfies(links, path, c.others)
  }

  /** The stored pictures the search returns. */
  function SearchResult(st: Store, c: SearchCriteria): (r: set<string>)
    ensures r <= st.pictures
  {
    set p | p in st.pictures && Matches(st.links, p, c)
  }

  predicate NoDuplicates(s: seq<string>) {
    forall i, j :: 0 <= i < j < |s| ==> s[i] != s[j]
  }

  function Elements(s: seq<string>): set<string> {
    set x | x in s
  }

  lemma {:induction false} ElementsCard(s: seq<string>)
    ensures |Elements(s)| <= |s|
    ensures |Elements(s)| == |s| <==> NoDuplicates(s)
  {
    if s != [] {
      var t := s[1..];
      ElementsCard(t);
      assert Elements(s) == {s[0]} + Elements(t);
      if s[0] in t {
        assert Elements(s) == Elements(t);
        var k :| 0 <= k < |t| && t[k] == s[0];
        assert s[k + 1] == s[0];
      } else {
        assert |Elements(s)| == |Elements(t)| + 1;
        if NoDuplicates(s) {
          assert NoDuplicates(t) by {
            forall i, j | 0 <= i < j < |t| ensures t[i] != t[j] { assert s[i + 1] != s[j + 1]; }
          }
        }
        if NoDuplicates(t) {
          forall i, j | 0 <= i < j < |s| ensures s[i] != s[j] {
            if i == 0 { assert s[j] == t[j - 1]; } else { assert t[i - 1] != t[j - 1]; }
          }
        }
      }
    }
  }

  lemma SubsetOfEqualSize(a: set<string>, b: set<string>)
    requires a <= b && |a| == |b|
    ensures a == b
  {
    assert b == a + (b - a);
    assert |b - a| == 0;
  }

  /** An any-of group: the picture carries at least one of the names. */
  lemma AnyOfGroup(links: set<PictureTag>, path: string, g: TagCriteria)
    requires |g.tags| > 0 && (IsOrOperator(g.operator) || |g.tags| == 1)
    ensures GroupMatches(links, path, g) <==> exists t :: t in g.tags && PictureTag(path, t) in links
  {
    if exists t :: t in g.tags && PictureTag(path, t) in links {
      var t :| t in g.tags && PictureTag(path, t) in links;
      assert t in TagsCarried(links, path, g.tags);
    }
  }

  /** Single-tag groups ignore their operator. */
  lemma SingleTagIgnoresOperator(links: set<PictureTag>, path: string, tag: string, op1: string, op2: string)
    ensures GroupMatches(links, path, TagCriteria([tag], op1)) == GroupMatches(links, path, TagCriteria([tag], op2))
    ensures GroupMatches(links, path, TagCriteria([tag], op1)) <==> PictureTag(path, tag) in links
  {
    AnyOfGroup(links, path, TagCriteria([tag], op1));
    AnyOfGroup(links, path, TagCriteria([tag], op2));
  }

  /** An all-of group over distinct names: the picture carries every one of them. */
  lemma AllOfGroup(links: set<PictureTag>, path: string, g: TagCriteria)
    requires |g.tags| > 1 && !IsOrOperator(g.operator) && NoDuplicates(g.tags)
    ensures GroupMatches(links, path, g) <==> forall t :: t in g.tags ==> PictureTag(path, t) in links
  {
    var carried := TagsCarried(links, path, g.tags);
    ElementsCard(g.tags);
    assert carried <= Elements(g.tags);
    if GroupMatches(links, path, g) {
      SubsetOfEqualSize(carried, Elements(g.tags));
      forall t | t in g.tags ensures PictureTag(path, t) in links {
        assert t in Elements(g.tags);
      }
    }
    if forall t :: t in g.tags ==> PictureTag(path, t) in links {
      assert carried == Elements(g.tags);
    }
  }

  /** A repeated name makes an all-of group unsatisfiable: the count can never reach len(tags). */
  lemma AllOfGroupWithDuplicates(links: set<PictureTag>, path: string, g: TagCriteria)
    requires |g.tags| > 1 && !IsOrOperator(g.operator) && !NoDuplicates(g.tags)
    ensures !GroupMatches(links, path, g)
  {
    ElementsCard(g.tags);
    SubsetCard(TagsCarried(links, path, g.tags), Elements(g.tags));
  }

  lemma SubsetCard(a: set<string>, b: set<string>)
    requires a <= b
    ensures |a| <= |b|
  {
    assert b == a + (b - a);
  }

  /** With every group empty the search returns every stored picture. */
  lemma EmptyCriteriaReturnsAll(st: Store, c: SearchCriteria)
    requires |c.persons.tags| == 0 && |c.locations.tags| == 0
    requires |c.events.tags| == 0 && |c.others.tags| == 0
    ensures SearchResult(st, c) == st.pictures
  {
  }

  /** The search formula holds iff every field's group is satisfied. */
  lemma MatchesEveryGroup(links: set<PictureTag>, path: string, c: SearchCriteria)
    ensures Matches(links, path, c) <==> forall s :: Satisfies(links, path, c.Group(s))
  {
    assert c.Group(Persons) == c.persons && c.Group(Locations) == c.locations;
    assert c.Group(Events) == c.events && c.Group(Others) == c.others;
  }

  /**
   * A non-empty group, in any field and under any operator, whose names no
   * picture carries makes the result empty; it is not an error.
   */
  lemma UnknownTagsMatchNothing(st: Store, c: SearchCriteria, s: Slot)
    requires |c.Group(s).tags| > 0
    requires forall l :: l in st.links ==> l.tagName !in c.Group(s).tags
    ensures SearchResult(st, c) == {}
  {
    forall p | p in st.pictures ensures !Matches(st.links, p, c) {
      MatchesEveryGroup(st.links, p, c);
      assert TagsCarried(st.links, p, c.Group(s).tags) == {};
    }
  }

  /** An all-of group with one name no picture carries makes the result empty. */
  lemma AllOfWithUnknownTagMatchesNothing(st: Store, c: SearchCriteria, s: Slot, tag: string)
    requires |c.Group(s).tags| > 1 && !IsOrOperator(c.Group(s).operator)
    requires tag in c.Group(s).tags
    requires forall l :: l in st.links ==> l.tagName != tag
    ensures SearchResult(st, c) == {}
  {
    var g := c.Group(s);
    var names := Elements(g.tags);
    ElementsCard(g.tags);
    assert tag in names;
    assert names == (names - {tag}) + {tag};
    forall p | p in st.pictures ensures !Matches(st.links, p, c) {
      MatchesEveryGroup(st.links, p, c);
      var carried := TagsCarried(st.links, p, g.tags);
      assert carried <= names - {tag};
      SubsetCard(carried, names - {tag});
    }
  }

  /**
   * The result holds stored pictures only; an empty group, in any field,
   * leaves only the other fields to constrain, and filling it can only
   * narrow the result.
   */
  lemma SearchNarrows(st: Store, c: SearchCriteria, s: Slot, g: TagCriteria)
    ensures SearchResult(st, c) <= st.pictures
    ensures forall p ::
      (Matches(st.links, p, c.WithGroup(s, TagCriteria([], g.operator)))
       <==> forall u :: u != s ==> Satisfies(st.links, p, c.Group(u)))
    ensures SearchResult(st, c.WithGroup(s, g)) <= SearchResult(st, c.WithGroup(s, TagCriteria([], g.operator)))
  {
    var full, empty := c.WithGroup(s, g), c.WithGroup(s, TagCriteria([], g.operator));
    forall p
      ensures Matches(st.links, p, empty) <==> forall u :: u != s ==> Satisfies(st.links, p, c.Group(u))
    {
      MatchesEveryGroup(st.links, p, empty);
    }
    forall p | p in SearchResult(st, full) ensures p in SearchResult(st, empty) {
      MatchesEveryGroup(st.links, p, full);
    }
  }

  /** All groups of a list select the picture. */
  predicate AllMatch(links: set<PictureTag>, path: string, gs: seq<TagCriteria>) {
    forall j :: 0 <= j < |gs| ==> GroupMatches(links, path, gs[j])
  }

  /** The order in which the non-empty groups are intersected does not matter. */
  lemma AllMatchOrderFree(links: set<PictureTag>, path: string, gs1: seq<TagCriteria>, gs2: seq<TagCriteria>)
    requires multiset(gs1) == multiset(gs2)
    ensures AllMatch(links, path, gs1) <==> AllMatch(links, path, gs2)
  {
    if AllMatch(links, path, gs2) {
      forall j | 0 <= j < |gs1| ensures GroupMatches(links, path, gs1[j]) {
        assert gs1[j] in multiset(gs2);
        var k :| 0 <= k < |gs2| && gs2[k] == gs1[j];
      }
    }
    if AllMatch(links, path, gs1) {
      forall j | 0 <= j < |gs2| ensures GroupMatches(links, path, gs2[j]) {
        assert gs2[j] in multiset(gs1);
        var k :| 0 <= k < |gs1| && gs1[k] == gs2[j];
      }
    }
  }

  /** The picture paths one sub-query selects from `picture_tags`. */
  function GroupPaths(links: set<PictureTag>, g: TagCriteria): (r: set<string>)
    requires |g.tags| > 0
    ensures forall p :: p in r <==> GroupMatches(links, p, g)
  {
    var r := set l | l in links && l.tagName in g.tags && GroupMatches(links, l.picturePath, g) :: l.picturePath;
    assert forall p :: GroupMatches(links, p, g) ==> p in r by {
      forall p | GroupMatches(links, p, g) ensures p in r {
        var carried := TagsCarried(links, p, g.tags);
        assert carried != {};
        var t :| t in carried;
        assert PictureTag(p, t) in links;
      }
    }
    r
  }

  lemma AllMatchSnoc(links: set<PictureTag>, path: string, gs: seq<TagCriteria>, g: TagCriteria)
    ensures AllMatch(links, path, gs + [g]) <==> AllMatch(links, path, gs) && GroupMatches(links, path, g)
  {
    assert forall j :: 0 <= j < |gs| ==> (gs + [g])[j] == gs[j];
    assert (gs + [g])[|gs|] == g;
  }

  lemma AllMatchConcat(links: set<PictureTag>, path: string, a: seq<TagCriteria>, b: seq<TagCriteria>)
    ensures AllMatch(links, path, a + b) <==> AllMatch(links, path, a) && AllMatch(links, path, b)
  {
    assert forall j :: 0 <= j < |a| ==> (a + b)[j] == a[j];
    assert forall j :: 0 <= j < |b| ==> (a + b)[|a| + j] == b[j];
  }

  /** The group list the search collects: the group itself when it has tags, nothing otherwise. */
  function Keep(g: TagCriteria): seq<TagCriteria> {
    if |g.tags| > 0 then [g] else []
  }

  lemma AllMatchKeep(links: set<PictureTag>, path: string, g: TagCriteria)
    ensures AllMatch(links, path, Keep(g)) <==> Satisfies(links, path, g)
  {
    if |g.tags| > 0 { assert Keep(g)[0] == g; }
  }

  /** The collected non-empty groups, in any order, express the search formula. */
  lemma {:induction false} CollectedGroups(links: set<PictureTag>, c: SearchCriteria, groups: seq<TagCriteria>)
    requires groups == NonEmptyGroups(c)
    ensures forall j :: 0 <= j < |groups| ==> |groups[j].tags| > 0
    ensures forall p :: Matches(links, p, c) <==> AllMatch(links, p, groups)
  {
    var a, b, d, e := Keep(c.persons), Keep(c.locations), Keep(c.events), Keep(c.others);
    forall p ensures Matches(links, p, c) <==> AllMatch(links, p, groups) {
      AllMatchKeep(links, p, c.persons);
      AllMatchKeep(links, p, c.locations);
      AllMatchKeep(links, p, c.events);
      AllMatchKeep(links, p, c.others);
      AllMatchConcat(links, p, a, b);
      AllMatchConcat(links, p, a + b, d);
      AllMatchConcat(links, p, a + b + d, e);
    }
  }

  // ---------------------------------------------------------------------------
  // The search query as the service writes it
  // ---------------------------------------------------------------------------

  /** The non-empty groups, in the order persons, locations, events, others. */
  function NonEmptyGroups(c: SearchCriteria): (gs: seq<TagCriteria>)
    ensures |gs| <= 4
    ensures forall j :: 0 <= j < |gs| ==> |gs[j].tags| > 0
    ensures |gs| == 0 <==> |c.persons.tags| == 0 && |c.locations.tags| == 0 && |c.events.tags| == 0 && |c.others.tags| == 0
  {
    Keep(c.persons) + Keep(c.locations) + Keep(c.events) + Keep(c.others)
  }

  const Select: string := "SELECT "
  const AnyOfQuery: string := Select + "DISTINCT picture_path FROM picture_tags WHERE tag_name IN (?)"
  const AllOfQuery: string :=
    Select + "picture_path FROM picture_tags WHERE tag_name IN (?) GROUP BY picture_path HAVING COUNT(DISTINCT tag_name) = ?"

  /** A group's sub-query: the any-of form for an "or" operator or a single tag, the all-of form otherwise. */
  function SubQuery(g: TagCriteria): (q: string)
    ensures HasPrefix(q, Select)
    ensures q == AnyOfQuery <==> IsOrOperator(g.operator) || |g.tags| == 1
  {
    assert AnyOfQuery[..|Select|] == Select && AllOfQuery[..|Select|] == Select;
    if IsOrOperator(g.operator) || |g.tags| == 1 then AnyOfQuery else AllOfQuery
  }

  /**
   * The final query: the lone sub-query as it is, or every sub-query inside
   * its own parentheses, joined by INTERSECT.
   */
  function FinalQuery(subQueries: seq<string>): (q: string)
    ensures |subQueries| == 1 ==> q == subQueries[0]
    ensures |subQueries| != 1 ==> |q| > 0 && q[0] == '('
  {
    if |subQueries| == 1 then subQueries[0]
    else "(" + Join(subQueries, ") INTERSECT (") + ")"
  }

  /**
   * SQLite has no statement that opens with a parenthesis: the operands of a
   * compound SELECT are bare select-cores, so `(SELECT ...) INTERSECT (SELECT ...)`
   * is a syntax error, raised before any row is read.
   */
  predicate OpensWithParenthesis(q: string) {
    |q| > 0 && q[0] == '('
  }

  datatype SearchOutcome = Found(paths: set<string>) | QueryFailed

  /**
   * The advanced search as the service writes it: every stored picture when
   * no group has tags; otherwise the final query runs, and the stored pictures
   * among the paths a lone sub-query selects are returned, while SQLite
   * refuses the parenthesised INTERSECT that any two groups produce and the
   * service reports "cannot execute search query".
   */
  function SearchAsWritten(st: Store, c: SearchCriteria): (r: SearchOutcome)
    ensures r == QueryFailed <==> |NonEmptyGroups(c)| > 1
  {
    var groups := NonEmptyGroups(c);
    if |groups| == 0 then Found(st.pictures)
    else
      var q := FinalQuery(seq(|groups|, i requires 0 <= i < |groups| => SubQuery(groups[i])));
      if OpensWithParenthesis(q) then QueryFailed
      else Found(set p | p in st.pictures && p in GroupPaths(st.links, groups[0]))
  }

  /** Where the query as written runs at all, it returns exactly the intended search result. */
  lemma AsWrittenAgreesUpToOneGroup(st: Store, c: SearchCriteria)
    ensures |NonEmptyGroups(c)| <= 1 ==> SearchAsWritten(st, c) == Found(SearchResult(st, c))
  {
    var groups := NonEmptyGroups(c);
    CollectedGroups(st.links, c, groups);
    if |groups| == 0 {
      EmptyCriteriaReturnsAll(st, c);
    } else if |groups| == 1 {
      var r := SearchAsWritten(st, c);
      assert r.paths == SearchResult(st, c) by {
        forall p ensures AllMatch(st.links, p, groups) <==> GroupMatches(st.links, p, groups[0]) {
        }
      }
    }
  }

  /**
   * One picture tagged with a person and a place, searched for by both: the
   * intended result holds the picture, while the query as written fails.
   */
  lemma PersonAndPlaceSearchFails()
    ensures var st := Store({"a.jpg"}, map["Alice" := TagInfo(Person, ""), "Paris" := TagInfo(Location, "")],
                            {PictureTag("a.jpg", "Alice"), PictureTag("a.jpg", "Paris")});
            var c := SearchCriteria(TagCriteria(["Alice"], "AND"), TagCriteria(["Paris"], "AND"),
                                    TagCriteria([], "AND"), TagCriteria([], "AND"));
            && SearchAsWritten(st, c) == QueryFailed
            && SearchResult(st, c) == {"a.jpg"}
  {
    var st := Store({"a.jpg"}, map["Alice" := TagInfo(Person, ""), "Paris" := TagInfo(Location, "")],
                    {PictureTag("a.jpg", "Alice"), PictureTag("a.jpg", "Paris")});
    var c := SearchCriteria(TagCriteria(["Alice"], "AND"), TagCriteria(["Paris"], "AND"),
                            TagCriteria([], "AND"), TagCriteria([], "AND"));
    assert |NonEmptyGroups(c)| == 2;
    assert "Alice" in TagsCarried(st.links, "a.jpg", c.persons.tags);
    assert "Paris" in TagsCarried(st.links, "a.jpg", c.locations.tags);
    assert Matches(st.links, "a.jpg", c);
  }

  // ---------------------------------------------------------------------------
  // The service, over mutable tables
  // ---------------------------------------------------------------------------

  datatype TagWithCount = TagWithCount(tag: Tag, pictureCount: nat)

  /** The tag names of a listing, in order. */
  function RowNames(rows: seq<TagWithCount>): (r: seq<string>)
    ensures |r| == |rows| && forall i :: 0 <= i < |rows| ==> r[i] == rows[i].tag.name
  {
    seq(|rows|, i requires 0 <= i < |rows| => rows[i].tag.name)
  }

  /** A listing row: an existing tag's row with the number of its associations. */
  predicate IsRow(st: Store, row: TagWithCount) {
    && row.tag.name in st.tags
    && row == TagWithCount(TagRow(st, row.tag.name), PictureCount(st.links, row.tag.name))
  }

  /** The names of a list of tag rows, in order. */
  function TagNames(found: seq<Tag>): (r: seq<string>)
    ensures |r| == |found| && forall i :: 0 <= i < |found| ==> r[i] == found[i].name
  {
    seq(|found|, i requires 0 <= i < |found| => found[i].name)
  }

  /** `found` lists the tags table: every row of it once, in some order. */
  predicate ListsTable(st: Store, found: seq<Tag>) {
    && NoDuplicates(TagNames(found))
    && Elements(TagNames(found)) == st.tags.Keys
    && forall i :: 0 <= i < |found| ==> found[i].name in st.tags && found[i] == TagRow(st, found[i].name)
  }

  class TagStore {
    var pictures: set<string>
    var tags: map<string, TagInfo>
    var links: set<PictureTag>

    function Model(): Store
      reads this
    {
      Store(pictures, tags, links)
    }

    /** A database holding the indexed pictures and no tags yet. */
    constructor (indexed: set<string>)
      ensures Model() == Store(indexed, map[], {})
      ensures Consistent(Model())
    {
      pictures, tags, links := indexed, map[], {};
    }

    method CreateTag(name: string, tagType: string, color: string) returns (status: Status)
      modifies this
      ensures (status, Model()) == CreateTagStep(old(Model()), name, tagType, color)
    {
      var trimmed := TrimSpace(name);
      if trimmed == [] {
        return Err(EmptyName);
      }
      if tagType !in TagTypes {
        return Err(InvalidType(tagType));
      }
      if trimmed in tags {
        return Err(AlreadyExists(trimmed));
      }
      tags := tags[trimmed := TagInfo(tagType, color)];
      status := Ok;
    }

    method UpdateTag(name: string, tagType: string, color: string) returns (status: Status)
      modifies this
      ensures (status, Model()) == UpdateTagStep(old(Model()), name, tagType, color)
    {
      if name !in tags {
        return Err(TagNotFound(name));
      }
      tags := tags[name := TagInfo(tagType, color)];
      status := Ok;
    }

    method DeleteTag(name: string) returns (status: Status)
      modifies this
      ensures (status, Model()) == DeleteTagStep(old(Model()), name)
    {
      links := set l | l in links && l.tagName != name;
      if name !in tags {
        assert tags - {name} == tags;
        return Err(TagNotFound(name));
      }
      tags := tags - {name};
      status := Ok;
    }

    method AddTagToPicture(path: string, name: string) returns (status: Status)
      modifies this
      ensures (status, Model()) == AddTagToPictureStep(old(Model()), path, name)
    {
      if path !in pictures {
        return Err(PictureNotFound(path));
      }
      if name !in tags {
        return Err(TagNotFound(name));
      }
      if PictureTag(path, name) in links {
        return Ok;
      }
      links := links + {PictureTag(path, name)};
      status := Ok;
    }

    method RemoveTagFromPicture(path: string, name: string) returns (status: Status)
      modifies this
      ensures (status, Model()) == RemoveTagFromPictureStep(old(Model()), path, name)
    {
      links := links - {PictureTag(path, name)};
      status := Ok;
    }

    /** The tags joined to the picture's association rows. */
    method GetTagsForPicture(path: string) returns (r: set<Tag>)
      ensures forall t :: t in r <==>
        t.name in tags && PictureTag(path, t.name) in links && t == TagRow(Model(), t.name)
    {
      r := set n | n in tags && PictureTag(path, n) in links :: TagRow(Model(), n);
    }

    /**
     * GetAllTagsWithCount, given the rows the tags query returned: each row
     * with the number of its association rows, in the query's order. When
     * those rows list the tags table, every tag appears exactly once.
     */
    method GetAllTagsWithCount(found: seq<Tag>) returns (result: seq<TagWithCount>)
      ensures |result| == |found|
      ensures forall i :: 0 <= i < |result| ==> result[i] == TagWithCount(found[i], PictureCount(links, found[i].name))
      ensures ListsTable(Model(), found) ==>
        && NoDuplicates(RowNames(result)) && Elements(RowNames(result)) == tags.Keys
        && |result| == |tags|
        && forall i :: 0 <= i < |result| ==> IsRow(Model(), result[i])
    {
      result := [];
      for i := 0 to |found|
        invariant |result| == i
        invariant forall j :: 0 <= j < i ==> result[j] == TagWithCount(found[j], PictureCount(links, found[j].name))
      {
        result := result + [TagWithCount(found[i], PictureCount(links, found[i].name))];
      }
      assert RowNames(result) == TagNames(found);
      ElementsCard(TagNames(found));
    }

    /** The non-empty groups, in the order persons, locations, events, others. */
    static method CollectGroups(criteria: SearchCriteria) returns (groups: seq<TagCriteria>)
      ensures groups == NonEmptyGroups(criteria)
    {
      groups := [];
      if |criteria.persons.tags| > 0 { groups := groups + [criteria.persons]; }
      if |criteria.locations.tags| > 0 { groups := groups + [criteria.locations]; }
      if |criteria.events.tags| > 0 { groups := groups + [criteria.events]; }
      if |criteria.others.tags| > 0 { groups := groups + [criteria.others]; }
    }

    /** The intersection of the groups' sub-queries: the paths every group matches. */
    method IntersectGroups(groups: seq<TagCriteria>) returns (paths: set<string>)
      requires |groups| > 0 && forall j :: 0 <= j < |groups| ==> |groups[j].tags| > 0
      ensures forall p :: p in paths <==> AllMatch(links, p, groups)
    {
      paths := GroupPaths(links, groups[0]);
      var i := 1;
      while i < |groups|
        invariant 1 <= i <= |groups|
        invariant forall p :: p in paths <==> AllMatch(links, p, groups[..i])
      {
        paths := paths * GroupPaths(links, groups[i]);
        forall p ensures AllMatch(links, p, groups[..i + 1]) <==> AllMatch(links, p, groups[..i]) && GroupMatches(links, p, groups[i]) {
          assert groups[..i + 1] == groups[..i] + [groups[i]];
          AllMatchSnoc(links, p, groups[..i], groups[i]);
        }
        i := i + 1;
      }
      assert groups[..i] == groups;
    }

    /**
     * SearchPicturesAdvanced: collects the non-empty groups, returns every
     * picture when there is none, and otherwise intersects the groups'
     * sub-queries and keeps the stored pictures among the paths found.
     */
    method SearchPicturesAdvanced(criteria: SearchCriteria) returns (result: set<string>)
      ensures result == SearchResult(Model(), criteria)
    {
      var groups := CollectGroups(criteria);
      CollectedGroups(links, criteria, groups);
      if |groups| == 0 {
        return pictures;
      }
      var paths := IntersectGroups(groups);
      result := set p | p in pictures && p in paths;
    }
  }
}
