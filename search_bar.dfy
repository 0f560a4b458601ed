/**
 * The search bar of the frontend: four tag groups, each with its own AND/OR
 * operator, edited by toggling tags and operators. After every change of the
 * criteria the component either sends the backend search payload or clears
 * the search; that choice is returned here as an explicit effect.
 */
module SearchBar {
  import opened Wrappers
  import opened Models
  import TagService

  datatype Operator = And | Or

  /** The operator string of the backend payload. */
  function OperatorText(op: Operator): string {
    match op
    case And => "AND"
    case Or => "OR"
  }

  function Flip(op: Operator): (r: Operator)
    ensures r != op
  {
    if op == And then Or else And
  }

  datatype GroupCriteria = GroupCriteria(tags: seq<string>, operator: Operator)

  /** The keys of the criteria record. */
  datatype GroupType = PersonGroup | LocationGroup | EventGroup | OtherGroup

  datatype Criteria = Criteria(
    person: GroupCriteria,
    location: GroupCriteria,
    event: GroupCriteria,
    other: GroupCriteria)
  {
    function Group(t: GroupType): GroupCriteria {
      match t
      case PersonGroup => person
      case LocationGroup => location
      case EventGroup => event
      case OtherGroup => other
    }

    /** `{ ...prev, [type]: g }` */
    function WithGroup(t: GroupType, g: GroupCriteria): (r: Criteria)
      ensures r.Group(t) == g
      ensures forall u :: u != t ==> r.Group(u) == Group(u)
    {
      match t
      case PersonGroup => this.(person := g)
      case LocationGroup => this.(location := g)
      case EventGroup => this.(event := g)
      case OtherGroup => this.(other := g)
    }
  }

  /** The state the component starts in and that clearAll writes back. */
  function InitialCriteria(): (c: Criteria)
    ensures forall t :: c.Group(t).tags == []
    ensures forall t :: c.Group(t).operator == (if t == PersonGroup then And else Or)
  {
    Criteria(GroupCriteria([], And), GroupCriteria([], Or), GroupCriteria([], Or), GroupCriteria([], Or))
  }

  /** `current.filter(t => t !== name)` */
  function Without(s: seq<string>, name: string): (r: seq<string>)
    ensures forall x :: x in r <==> x in s && x != name
    ensures name !in s ==> r == s
    ensures TagService.NoDuplicates(s) ==> TagService.NoDuplicates(r)
  {
    if s == [] then []
    else
      var rest := Without(s[1..], name);
      assert TagService.NoDuplicates(s) ==> s[0] !in s[1..] && TagService.NoDuplicates(s[1..]) by {
        if TagService.NoDuplicates(s) {
          forall i | 0 <= i < |s| - 1 ensures s[1..][i] != s[0] { assert s[i + 1] != s[0]; }
          forall i, j | 0 <= i < j < |s| - 1 ensures s[1..][i] != s[1..][j] { assert s[i + 1] != s[j + 1]; }
        }
      }
      if s[0] == name then rest
      else
        assert TagService.NoDuplicates(s) ==> TagService.NoDuplicates([s[0]] + rest) by {
          if TagService.NoDuplicates(s) {
            forall i, j | 0 <= i < j < |rest| + 1 ensures ([s[0]] + rest)[i] != ([s[0]] + rest)[j] {
              if i == 0 { assert ([s[0]] + rest)[j] == rest[j - 1] && rest[j - 1] in rest; }
            }
          }
        }
        [s[0]] + rest
  }

  /** The new tag list of toggleTag: drop the name when present, else append it. */
  function ToggleName(s: seq<string>, name: string): (r: seq<string>)
    ensures name in r <==> name !in s
    ensures forall x :: x != name ==> (x in r <==> x in s)
  {
    if name in s then Without(s, name) else s + [name]
  }

  /** toggleTag(type, name) applied to the criteria. */
  function WithTagToggled(c: Criteria, t: GroupType, name: string): (r: Criteria)
    ensures r.Group(t).operator == c.Group(t).operator
    ensures forall u :: u != t ==> r.Group(u) == c.Group(u)
    ensures name in r.Group(t).tags <==> name !in c.Group(t).tags
    ensures forall x :: x != name ==> (x in r.Group(t).tags <==> x in c.Group(t).tags)
    ensures name !in c.Group(t).tags ==> r.Group(t).tags == c.Group(t).tags + [name]
  {
    c.WithGroup(t, c.Group(t).(tags := ToggleName(c.Group(t).tags, name)))
  }

  /** toggleOperator(type) applied to the criteria. */
  function WithOperatorToggled(c: Criteria, t: GroupType): (r: Criteria)
    ensures r.Group(t).tags == c.Group(t).tags
    ensures r.Group(t).operator != c.Group(t).operator
    ensures forall u :: u != t ==> r.Group(u) == c.Group(u)
  {
    c.WithGroup(t, c.Group(t).(operator := Flip(c.Group(t).operator)))
  }

  /** Toggling a name twice gives back the group's set of names; only the order may change. */
  lemma ToggleTagTwice(c: Criteria, t: GroupType, name: string)
    ensures var r := WithTagToggled(WithTagToggled(c, t, name), t, name);
      && TagService.Elements(r.Group(t).tags) == TagService.Elements(c.Group(t).tags)
      && r.Group(t).operator == c.Group(t).operator
      && (forall u :: u != t ==> r.Group(u) == c.Group(u))
      && (name !in c.Group(t).tags ==> r == c)
  {
    var once := WithTagToggled(c, t, name);
    var r := WithTagToggled(once, t, name);
    if name !in c.Group(t).tags {
      WithoutAppended(c.Group(t).tags, name);
      assert r.Group(t) == c.Group(t);
      CriteriaExtensional(r, c);
    }
  }

  lemma {:induction false} WithoutAppended(s: seq<string>, name: string)
    requires name !in s
    ensures Without(s + [name], name) == s
  {
    if s == [] {
      assert Without([name], name) == Without([], name);
    } else {
      assert (s + [name])[1..] == s[1..] + [name];
      WithoutAppended(s[1..], name);
      assert s == [s[0]] + s[1..];
    }
  }

  lemma CriteriaExtensional(a: Criteria, b: Criteria)
    requires forall t :: a.Group(t) == b.Group(t)
    ensures a == b
  {
    assert a.Group(PersonGroup) == b.Group(PersonGroup);
    assert a.Group(LocationGroup) == b.Group(LocationGroup);
    assert a.Group(EventGroup) == b.Group(EventGroup);
    assert a.Group(OtherGroup) == b.Group(OtherGroup);
  }

  /** Toggling never puts a name twice into a group that had no name twice. */
  lemma ToggleTagKeepsDistinct(c: Criteria, t: GroupType, name: string)
    requires TagService.NoDuplicates(c.Group(t).tags)
    ensures TagService.NoDuplicates(WithTagToggled(c, t, name).Group(t).tags)
  {
    var s := c.Group(t).tags;
    if name !in s {
      forall i, j | 0 <= i < j < |s| + 1 ensures (s + [name])[i] != (s + [name])[j] {
        if j == |s| { assert s[i] in s; }
      }
    }
  }

  /** Toggling an operator twice is the identity. */
  lemma ToggleOperatorTwice(c: Criteria, t: GroupType)
    ensures WithOperatorToggled(WithOperatorToggled(c, t), t) == c
  {
    var r := WithOperatorToggled(WithOperatorToggled(c, t), t);
    assert r.Group(t) == c.Group(t);
    CriteriaExtensional(r, c);
  }

  /** `hasAnyCriteria` */
  predicate HasAnyCriteria(c: Criteria) {
    || |c.person.tags| > 0
    || |c.location.tags| > 0
    || |c.event.tags| > 0
    || |c.other.tags| > 0
  }

  /** `totalSelected` */
  function TotalSelected(c: Criteria): (n: nat)
    ensures n == 0 <==> forall t :: c.Group(t).tags == []
  {
    assert c.Group(PersonGroup) == c.person && c.Group(LocationGroup) == c.location;
    assert c.Group(EventGroup) == c.event && c.Group(OtherGroup) == c.other;
    |c.person.tags| + |c.location.tags| + |c.event.tags| + |c.other.tags|
  }

  /** The counter shown next to the bar is positive exactly when a search is sent. */
  lemma TotalSelectedCountsCriteria(c: Criteria)
    ensures HasAnyCriteria(c) <==> TotalSelected(c) > 0
    ensures TotalSelected(InitialCriteria()) == 0
  {
  }

  /** The backend payload: person to persons, location to locations, event to events, other to others. */
  function ToSearchCriteria(c: Criteria): (r: TagService.SearchCriteria)
    ensures r.persons == TagService.TagCriteria(c.person.tags, OperatorText(c.person.operator))
    ensures r.locations == TagService.TagCriteria(c.location.tags, OperatorText(c.location.operator))
    ensures r.events == TagService.TagCriteria(c.event.tags, OperatorText(c.event.operator))
    ensures r.others == TagService.TagCriteria(c.other.tags, OperatorText(c.other.operator))
  {
    TagService.SearchCriteria(
      TagService.TagCriteria(c.person.tags, OperatorText(c.person.operator)),
      TagService.TagCriteria(c.location.tags, OperatorText(c.location.operator)),
      TagService.TagCriteria(c.event.tags, OperatorText(c.event.operator)),
      TagService.TagCriteria(c.other.tags, OperatorText(c.other.operator)))
  }

  /** What the criteria effect does: search with the payload, or clear. */
  datatype Effect = Search(criteria: TagService.SearchCriteria) | Clear

  function EffectFor(c: Criteria): (e: Effect)
    ensures e.Search? <==> HasAnyCriteria(c)
    ensures e.Search? ==> e.criteria == ToSearchCriteria(c)
  {
    if HasAnyCriteria(c) then Search(ToSearchCriteria(c)) else Clear
  }

  /**
   * The meaning a user reads into a selection: in each group with tags, AND
   * asks for all of them on the picture and OR for at least one.
   */
  predicate GroupSelects(links: set<PictureTag>, path: string, g: GroupCriteria) {
    match g.operator
    case And => forall n :: n in g.tags ==> PictureTag(path, n) in links
    case Or => g.tags == [] || exists n :: n in g.tags && PictureTag(path, n) in links
  }

  predicate Selects(links: set<PictureTag>, path: string, c: Criteria) {
    forall t :: GroupSelects(links, path, c.Group(t))
  }

  predicate Distinct(c: Criteria) {
    forall t :: TagService.NoDuplicates(c.Group(t).tags)
  }

  lemma {:induction false} GroupPayloadMeaning(links: set<PictureTag>, path: string, g: GroupCriteria)
    requires TagService.NoDuplicates(g.tags)
    ensures TagService.Satisfies(links, path, TagService.TagCriteria(g.tags, OperatorText(g.operator)))
      <==> GroupSelects(links, path, g)
  {
    var tc := TagService.TagCriteria(g.tags, OperatorText(g.operator));
    assert TagService.IsOrOperator(tc.operator) <==> g.operator == Or by {
      TagService.OrOperatorSpellings(tc.operator);
    }
    if |g.tags| == 0 {
    } else if g.operator == Or || |g.tags| == 1 {
      TagService.AnyOfGroup(links, path, tc);
      if |g.tags| == 1 {
        assert g.tags[0] in g.tags;
        assert forall n :: n in g.tags ==> n == g.tags[0];
      }
    } else {
      TagService.AllOfGroup(links, path, tc);
    }
  }

  /**
   * With no name twice in a group, the backend search over the payload selects
   * exactly the pictures the selection means.
   */
  lemma {:induction false} PayloadMeansSelection(links: set<PictureTag>, path: string, c: Criteria)
    requires Distinct(c)
    ensures TagService.Matches(links, path, ToSearchCriteria(c)) <==> Selects(links, path, c)
  {
    assert c.person == c.Group(PersonGroup) && c.location == c.Group(LocationGroup);
    assert c.event == c.Group(EventGroup) && c.other == c.Group(OtherGroup);
    GroupPayloadMeaning(links, path, c.person);
    GroupPayloadMeaning(links, path, c.location);
    GroupPayloadMeaning(links, path, c.event);
    GroupPayloadMeaning(links, path, c.other);
    if Selects(links, path, c) {
      assert GroupSelects(links, path, c.Group(PersonGroup));
      assert GroupSelects(links, path, c.Group(LocationGroup));
      assert GroupSelects(links, path, c.Group(EventGroup));
      assert GroupSelects(links, path, c.Group(OtherGroup));
    }
  }

  /** A person group holding only "Alice" selects a picture tagged Alice and Paris, not one tagged Bob. */
  lemma AliceScenario()
    ensures var c := WithTagToggled(InitialCriteria(), PersonGroup, "Alice");
      var links := {PictureTag("a.jpg", "Alice"), PictureTag("a.jpg", "Paris"), PictureTag("b.jpg", "Bob")};
      && EffectFor(c).Search?
      && TagService.Matches(links, "a.jpg", ToSearchCriteria(c))
      && !TagService.Matches(links, "b.jpg", ToSearchCriteria(c))
  {
    var c := WithTagToggled(InitialCriteria(), PersonGroup, "Alice");
    var links := {PictureTag("a.jpg", "Alice"), PictureTag("a.jpg", "Paris"), PictureTag("b.jpg", "Bob")};
    assert c.person.tags == ["Alice"];
    TagService.SingleTagIgnoresOperator(links, "a.jpg", "Alice", "AND", "AND");
    TagService.SingleTagIgnoresOperator(links, "b.jpg", "Alice", "AND", "AND");
  }

  // ---------------------------------------------------------------------------
  // Bucketing of the loaded tags
  // ---------------------------------------------------------------------------

  /** The bucket a tag goes to: its type when it is one of the four, `other` otherwise. */
  function BucketOf(tagType: string): (t: GroupType)
    ensures tagType == Person ==> t == PersonGroup
    ensures tagType == Location ==> t == LocationGroup
    ensures tagType == Event ==> t == EventGroup
    ensures tagType !in TagTypes ==> t == OtherGroup
  {
    if tagType == Person then PersonGroup
    else if tagType == Location then LocationGroup
    else if tagType == Event then EventGroup
    else OtherGroup
  }

  /** The loaded tags of one bucket, in load order. */
  function TagsOfBucket(tags: seq<Tag>, t: GroupType): seq<Tag> {
    if tags == [] then []
    else
      var last := tags[|tags| - 1];
      TagsOfBucket(tags[..|tags| - 1], t) + (if BucketOf(last.tagType) == t then [last] else [])
  }

  /** Each loaded tag lands in its own bucket and in no other. */
  lemma {:induction false} BucketMembership(tags: seq<Tag>, t: GroupType, x: Tag)
    ensures x in TagsOfBucket(tags, t) <==> x in tags && BucketOf(x.tagType) == t
  {
    if tags != [] {
      BucketMembership(tags[..|tags| - 1], t, x);
      assert tags == tags[..|tags| - 1] + [tags[|tags| - 1]];
    }
  }

  /** The four buckets together hold as many entries as were loaded. */
  lemma {:induction false} BucketsPartition(tags: seq<Tag>)
    ensures |TagsOfBucket(tags, PersonGroup)| + |TagsOfBucket(tags, LocationGroup)|
          + |TagsOfBucket(tags, EventGroup)| + |TagsOfBucket(tags, OtherGroup)| == |tags|
  {
    if tags != [] {
      BucketsPartition(tags[..|tags| - 1]);
    }
  }

  datatype TagsByType = TagsByType(person: seq<Tag>, location: seq<Tag>, event: seq<Tag>, other: seq<Tag>) {
    function Bucket(t: GroupType): seq<Tag> {
      match t
      case PersonGroup => person
      case LocationGroup => location
      case EventGroup => event
      case OtherGroup => other
    }
  }

  /** The loop of loadTags that pushes each tag into its bucket. */
  method GroupByType(tags: seq<Tag>) returns (grouped: TagsByType)
    ensures forall t :: grouped.Bucket(t) == TagsOfBucket(tags, t)
  {
    grouped := TagsByType([], [], [], []);
    for i := 0 to |tags|
      invariant forall t :: grouped.Bucket(t) == TagsOfBucket(tags[..i], t)
    {
      var tag := tags[i];
      assert tags[..i + 1][..i] == tags[..i];
      match BucketOf(tag.tagType)
      case PersonGroup => grouped := grouped.(person := grouped.person + [tag]);
      case LocationGroup => grouped := grouped.(location := grouped.location + [tag]);
      case EventGroup => grouped := grouped.(event := grouped.event + [tag]);
      case OtherGroup => grouped := grouped.(other := grouped.other + [tag]);
    }
    assert tags[..|tags|] == tags;
  }

  // ---------------------------------------------------------------------------
  // The component state
  // ---------------------------------------------------------------------------

  class SearchBarState {
    var criteria: Criteria
    var allTags: seq<Tag>
    var tagsByType: TagsByType

    /** Toggling keeps every group free of repeated names. */
    ghost predicate Valid()
      reads this
    {
      Distinct(criteria)
    }

    constructor ()
      ensures criteria == InitialCriteria() && allTags == [] && tagsByType == TagsByType([], [], [], [])
      ensures Valid()
    {
      criteria := InitialCriteria();
      allTags := [];
      tagsByType := TagsByType([], [], [], []);
    }

    /** loadTags: on success store the tags and their buckets; on failure keep the state. */
    method LoadTags(reply: Option<seq<Tag>>)
      modifies this
      ensures criteria == old(criteria)
      ensures reply.None? ==> allTags == old(allTags) && tagsByType == old(tagsByType)
      ensures reply.Some? ==> allTags == reply.value
      ensures reply.Some? ==> forall t :: tagsByType.Bucket(t) == TagsOfBucket(reply.value, t)
    {
      if reply.Some? {
        allTags := reply.value;
        tagsByType := GroupByType(reply.value);
      }
    }

    method ToggleTag(t: GroupType, name: string) returns (effect: Effect)
      requires Valid()
      modifies this
      ensures Valid()
      ensures criteria == WithTagToggled(old(criteria), t, name)
      ensures effect == EffectFor(criteria)
      ensures allTags == old(allTags) && tagsByType == old(tagsByType)
    {
      ToggleTagKeepsDistinct(criteria, t, name);
      criteria := WithTagToggled(criteria, t, name);
      effect := EffectFor(criteria);
    }

    method ToggleOperator(t: GroupType) returns (effect: Effect)
      requires Valid()
      modifies this
      ensures Valid()
      ensures criteria == WithOperatorToggled(old(criteria), t)
      ensures effect == EffectFor(criteria)
      ensures allTags == old(allTags) && tagsByType == old(tagsByType)
    {
      criteria := WithOperatorToggled(criteria, t);
      effect := EffectFor(criteria);
    }

    /** clearAll restores the initial criteria, and the effect then clears the search. */
    method ClearAll() returns (effect: Effect)
      modifies this
      ensures Valid()
      ensures criteria == InitialCriteria()
      ensures effect == Clear
      ensures allTags == old(allTags) && tagsByType == old(tagsByType)
    {
      criteria := InitialCriteria();
      effect := EffectFor(criteria);
    }
  }
}
