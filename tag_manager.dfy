/**
 * The tag management screen: the create/edit form, its validation before any
 * backend call, and the type label and icon lookups. Backend answers are
 * passed in; the requests and alerts the screen issues are returned as
 * effects.
 */
module TagManager {
  import opened Wrappers
  import opened Text
  import opened Models
  import TagService

  /** The palette's blue, the form's default color. */
  const DefaultColor: string := "#3B82F6"

  /** A JavaScript truthiness test on `string | null`: present and non-empty. */
  predicate Truthy(s: Option<string>) {
    s.Some? && s.value != []
  }

  /** The submit button is disabled while loading, or when creating with a blank name. */
  predicate SubmitDisabled(loading: bool, editingTag: Option<string>, formName: string) {
    loading || (!Truthy(editingTag) && TrimSpace(formName) == [])
  }

  /** The French label of a type, or the type itself when it is not one of the four. */
  function TypeLabel(tagType: string): (r: string)
    ensures tagType == Person ==> r == "Personne"
    ensures tagType == Location ==> r == "Lieu"
    ensures tagType == Event ==> r == "Evenement"
    ensures tagType == Other ==> r == "Autre"
    ensures r == tagType <==> tagType !in TagTypes
  {
    if tagType == Person then "Personne"
    else if tagType == Location then "Lieu"
    else if tagType == Event then "Evenement"
    else if tagType == Other then "Autre"
    else tagType
  }

  const PersonIcon: string := "\U{1F464}"
  const LocationIcon: string := "\U{1F4CD}"
  const EventIcon: string := "\U{1F4C5}"
  const GenericIcon: string := "\U{1F3F7}\U{FE0F}"

  /** The icon of a type; "other" and every unknown type share the generic icon. */
  function TypeIcon(tagType: string): (r: string)
    ensures r == GenericIcon <==> tagType !in [Person, Location, Event]
    ensures tagType == Person ==> r == PersonIcon
    ensures tagType == Location ==> r == LocationIcon
    ensures tagType == Event ==> r == EventIcon
  {
    if tagType == Person then PersonIcon
    else if tagType == Location then LocationIcon
    else if tagType == Event then EventIcon
    else GenericIcon
  }

  /** What the screen asks of the backend and of the user. */
  datatype Effect =
    | CreateTag(name: string, tagType: string, color: string)
    | UpdateTag(name: string, tagType: string, color: string)
    | DeleteTag(name: string)
    | GetAllTagsWithCount
    | AlertNameRequired
    | AlertError

  class TagForm {
    var tags: seq<TagService.TagWithCount>
    var loading: bool
    var showForm: bool
    var editingTag: Option<string>
    var formName: string
    var formType: string
    var formColor: string

    constructor ()
      ensures tags == [] && !loading && !showForm && editingTag == None
      ensures formName == [] && formType == Other && formColor == DefaultColor
    {
      tags := [];
      loading := false;
      showForm := false;
      editingTag := None;
      formName := [];
      formType := Other;
      formColor := DefaultColor;
    }

    /** loadTags: a failed load keeps the list. */
    method LoadTags(reply: Option<seq<TagService.TagWithCount>>) returns (effects: seq<Effect>)
      modifies this
      ensures effects == [GetAllTagsWithCount]
      ensures tags == (if reply.Some? then reply.value else old(tags))
      ensures loading == old(loading) && showForm == old(showForm) && editingTag == old(editingTag)
      ensures formName == old(formName) && formType == old(formType) && formColor == old(formColor)
    {
      effects := [GetAllTagsWithCount];
      if reply.Some? {
        tags := reply.value;
      }
    }

    method ResetForm()
      modifies this
      ensures formName == [] && formType == Other && formColor == DefaultColor
      ensures !showForm && editingTag == None
      ensures tags == old(tags) && loading == old(loading)
    {
      formName := [];
      formType := Other;
      formColor := DefaultColor;
      showForm := false;
      editingTag := None;
    }

    /** The "new tag" button, disabled while loading: a cleared form, opened in create mode. */
    method OpenCreateForm()
      modifies this
      ensures old(loading) ==>
        && showForm == old(showForm) && editingTag == old(editingTag)
        && formName == old(formName) && formType == old(formType) && formColor == old(formColor)
      ensures !old(loading) ==>
        && formName == [] && formType == Other && formColor == DefaultColor
        && showForm && editingTag == None
      ensures tags == old(tags) && loading == old(loading)
    {
      if loading {
        return;
      }
      ResetForm();
      showForm := true;
    }

    /**
     * A row's edit button, disabled while loading: handleEdit puts the tag's
     * fields in the form, which opens in edit mode.
     */
    method HandleEdit(tag: TagService.TagWithCount)
      modifies this
      ensures old(loading) ==>
        && showForm == old(showForm) && editingTag == old(editingTag)
        && formName == old(formName) && formType == old(formType) && formColor == old(formColor)
      ensures !old(loading) ==>
        && editingTag == Some(tag.tag.name) && showForm
        && formName == tag.tag.name && formType == tag.tag.tagType
        && formColor == (if tag.tag.color == [] then DefaultColor else tag.tag.color)
      ensures tags == old(tags) && loading == old(loading)
    {
      if loading {
        return;
      }
      editingTag := Some(tag.tag.name);
      formName := tag.tag.name;
      formType := tag.tag.tagType;
      formColor := if tag.tag.color == [] then DefaultColor else tag.tag.color;
      showForm := true;
    }

    /** Typing into the name field; the field is disabled in edit mode. */
    method SetFormName(name: string)
      modifies this
      ensures formName == (if Truthy(old(editingTag)) then old(formName) else name)
      ensures tags == old(tags) && loading == old(loading) && showForm == old(showForm)
      ensures editingTag == old(editingTag) && formType == old(formType) && formColor == old(formColor)
    {
      if !Truthy(editingTag) {
        formName := name;
      }
    }

    method SetFormType(tagType: string)
      modifies this
      ensures formType == tagType
      ensures tags == old(tags) && loading == old(loading) && showForm == old(showForm)
      ensures editingTag == old(editingTag) && formName == old(formName) && formColor == old(formColor)
    {
      formType := tagType;
    }

    method SetFormColor(color: string)
      modifies this
      ensures formColor == color
      ensures tags == old(tags) && loading == old(loading) && showForm == old(showForm)
      ensures editingTag == old(editingTag) && formName == old(formName) && formType == old(formType)
    {
      formColor := color;
    }

    /**
     * handleCreate, with the backend's answers. A blank name is refused with an
     * alert and no call; otherwise the trimmed name is sent and, on success,
     * the list is reloaded and the form reset. Loading ends false.
     */
    method HandleCreate(created: bool, reply: Option<seq<TagService.TagWithCount>>) returns (effects: seq<Effect>)
      modifies this
      ensures TrimSpace(old(formName)) == [] ==>
        && effects == [AlertNameRequired]
        && loading == old(loading) && tags == old(tags) && showForm == old(showForm)
        && editingTag == old(editingTag) && formName == old(formName)
        && formType == old(formType) && formColor == old(formColor)
      ensures TrimSpace(old(formName)) != [] ==>
        var call := CreateTag(TrimSpace(old(formName)), old(formType), old(formColor));
        && !loading
        && (created ==>
              && effects == [call, GetAllTagsWithCount]
              && tags == (if reply.Some? then reply.value else old(tags))
              && formName == [] && formType == Other && formColor == DefaultColor
              && !showForm && editingTag == None)
        && (!created ==>
              && effects == [call, AlertError]
              && tags == old(tags) && showForm == old(showForm) && editingTag == old(editingTag)
              && formName == old(formName) && formType == old(formType) && formColor == old(formColor))
    {
      var name := TrimSpace(formName);
      if name == [] {
        return [AlertNameRequired];
      }
      effects := SendCreate(name, created, reply);
    }

    /** The part of handleCreate after validation: the call, then a reload and reset or an alert. */
    method SendCreate(name: string, created: bool, reply: Option<seq<TagService.TagWithCount>>) returns (effects: seq<Effect>)
      modifies this
      ensures var call := CreateTag(name, old(formType), old(formColor));
        && !loading
        && (created ==>
              && effects == [call, GetAllTagsWithCount]
              && tags == (if reply.Some? then reply.value else old(tags))
              && formName == [] && formType == Other && formColor == DefaultColor
              && !showForm && editingTag == None)
        && (!created ==>
              && effects == [call, AlertError]
              && tags == old(tags) && showForm == old(showForm) && editingTag == old(editingTag)
              && formName == old(formName) && formType == old(formType) && formColor == old(formColor))
    {
      loading := true;
      effects := [CreateTag(name, formType, formColor)];
      if created {
        var reload := LoadTags(reply);
        effects := effects + reload;
        ResetForm();
      } else {
        effects := effects + [AlertError];
      }
      loading := false;
    }

    /**
     * handleUpdate: a no-op outside edit mode; the name sent is always the
     * edited tag's own, so a tag cannot be renamed.
     */
    method HandleUpdate(updated: bool, reply: Option<seq<TagService.TagWithCount>>) returns (effects: seq<Effect>)
      modifies this
      ensures !Truthy(old(editingTag)) ==>
        && effects == []
        && loading == old(loading) && tags == old(tags) && showForm == old(showForm)
        && editingTag == old(editingTag) && formName == old(formName)
        && formType == old(formType) && formColor == old(formColor)
      ensures Truthy(old(editingTag)) ==>
        var call := UpdateTag(old(editingTag).value, old(formType), old(formColor));
        && !loading
        && (updated ==>
              && effects == [call, GetAllTagsWithCount]
              && tags == (if reply.Some? then reply.value else old(tags))
              && formName == [] && formType == Other && formColor == DefaultColor
              && !showForm && editingTag == None)
        && (!updated ==>
              && effects == [call, AlertError]
              && tags == old(tags) && showForm == old(showForm) && editingTag == old(editingTag)
              && formName == old(formName) && formType == old(formType) && formColor == old(formColor))
    {
      if !Truthy(editingTag) {
        return [];
      }
      loading := true;
      effects := [UpdateTag(editingTag.value, formType, formColor)];
      if updated {
        var reload := LoadTags(reply);
        effects := effects + reload;
        ResetForm();
      } else {
        effects := effects + [AlertError];
      }
      loading := false;
    }

    /** The form's submit button: update in edit mode, create otherwise; nothing while disabled. */
    method Submit(succeeded: bool, reply: Option<seq<TagService.TagWithCount>>) returns (effects: seq<Effect>)
      modifies this
      ensures SubmitDisabled(old(loading), old(editingTag), old(formName)) ==> effects == []
      ensures !SubmitDisabled(old(loading), old(editingTag), old(formName)) ==>
        && |effects| > 0
        && effects[0] == (if Truthy(old(editingTag)) then UpdateTag(old(editingTag).value, old(formType), old(formColor))
                          else CreateTag(TrimSpace(old(formName)), old(formType), old(formColor)))
        && !loading
    {
      if SubmitDisabled(loading, editingTag, formName) {
        return [];
      }
      if Truthy(editingTag) {
        effects := HandleUpdate(succeeded, reply);
      } else {
        effects := HandleCreate(succeeded, reply);
      }
    }

    /**
     * A row's delete button, disabled while loading: handleDelete, after the
     * user's answer to the confirmation.
     */
    method HandleDelete(name: string, confirmed: bool, deleted: bool, reply: Option<seq<TagService.TagWithCount>>)
      returns (effects: seq<Effect>)
      modifies this
      ensures old(loading) || !confirmed ==> effects == [] && tags == old(tags) && loading == old(loading)
      ensures !old(loading) && confirmed ==>
        && !loading
        && effects == [DeleteTag(name)] + (if deleted then [GetAllTagsWithCount] else [AlertError])
        && tags == (if deleted && reply.Some? then reply.value else old(tags))
      ensures showForm == old(showForm) && editingTag == old(editingTag)
      ensures formName == old(formName) && formType == old(formType) && formColor == old(formColor)
    {
      if loading || !confirmed {
        return [];
      }
      loading := true;
      effects := [DeleteTag(name)];
      if deleted {
        var reload := LoadTags(reply);
        effects := effects + reload;
      } else {
        effects := effects + [AlertError];
      }
      loading := false;
    }
  }

  /**
   * The name the form sends is already trimmed, so the backend's own trim
   * leaves it as it is: on success the store holds exactly the name the form
   * sent, and a second submission of the same name is refused as a duplicate.
   */
  lemma CreateFromFormStoresSentName(st: TagService.Store, formName: string, tagType: string, color: string)
    requires TrimSpace(formName) != [] && TagService.IsValidType(tagType)
    requires TrimSpace(formName) !in st.tags
    ensures var sent := TrimSpace(formName);
      var (status, st1) := TagService.CreateTagStep(st, sent, tagType, color);
      && status == TagService.Ok
      && st1.tags == st.tags[sent := TagService.TagInfo(tagType, color)]
      && TagService.CreateTagStep(st1, sent, tagType, color).0 == TagService.Err(TagService.AlreadyExists(sent))
  {
    TrimSpaceIdempotent(formName);
  }

  /** In create mode an enabled submit button means the blank-name alert cannot fire. */
  lemma EnabledCreatePassesValidation(loading: bool, editingTag: Option<string>, formName: string)
    requires !SubmitDisabled(loading, editingTag, formName) && !Truthy(editingTag)
    ensures !loading
    ensures TrimSpace(formName) != []
    ensures TagService.CreateTagStep(TagService.Store({}, map[], {}), TrimSpace(formName), Other, DefaultColor).0 == TagService.Ok
  {
    TrimSpaceIdempotent(formName);
  }
}
