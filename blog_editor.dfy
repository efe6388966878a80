/** The add-blog page of the admin console: the category and tag editors (with trimming),
    the repeatable extra sections, the featured-image upload result and the submit guard.
    The confirmation dialog and the upload request are replaced by their answers. */
module BlogEditor {
  import opened Wrappers
  import opened Text
  import opened Types
  import SeqUtil

  // ---- categories and tags ----

  /** `addCategory` on the list and the input box: a blank input or one already listed, compared
      before trimming, changes nothing; otherwise the trimmed input is appended and the box cleared. */
  function AddCategory(categories: seq<string>, input: string): (seq<string>, string) {
    if Trim(input) != "" && input !in categories then (categories + [Trim(input)], "")
    else (categories, input)
  }

  /** `addTag`: a non-blank input is appended as a tag, trimmed, with no duplicate check. */
  function AddTag(tags: seq<Tag>, input: string): (seq<Tag>, string) {
    if Trim(input) != "" then (tags + [Tag(Trim(input))], "")
    else (tags, input)
  }

  /** Every entry is non-empty and has no surrounding white space. */
  predicate AllTrimmed(items: seq<string>) {
    forall i :: 0 <= i < |items| ==> items[i] != "" && Trim(items[i]) == items[i]
  }

  /** The category editor only ever appends a trimmed, non-empty entry, so a list built by it has
      only such entries; and an input that is already trimmed is never added twice. */
  lemma AddCategoryKeepsTrimmed(categories: seq<string>, input: string)
    requires AllTrimmed(categories)
    ensures var (after, box) := AddCategory(categories, input);
      && AllTrimmed(after)
      && categories <= after && |after| <= |categories| + 1
      && (after != categories ==> box == "" && after[|categories|] == Trim(input))
      && (SeqUtil.Distinct(categories) && Trim(input) == input ==> SeqUtil.Distinct(after))
  {
    TrimSpec(input);
  }

  /** The duplicate test looks at the untrimmed input: with "news" listed, " news" is added again. */
  lemma AddCategoryTrimmedDuplicate()
    ensures AddCategory(["news"], " news") == (["news", "news"], "")
  {
    assert " news"[1..] == "news";
    assert Trim(" news") == "news";
    assert |" news"| != |"news"|;
    assert ["news"] + ["news"] == ["news", "news"];
  }

  /** With tags, even the exact same input is added again. */
  lemma AddTagDuplicates(tags: seq<Tag>, name: string)
    requires name != "" && Trim(name) == name
    ensures AddTag(AddTag(tags, name).0, name).0 == tags + [Tag(name), Tag(name)]
  {
  }

  /** The remove button of category `cat`. */
  function RemoveCategory(categories: seq<string>, cat: string): seq<string> {
    SeqUtil.Filter(categories, c => c != cat)
  }

  /** The remove button of tag `name`. */
  function RemoveTag(tags: seq<Tag>, name: string): seq<Tag> {
    SeqUtil.Filter(tags, (t: Tag) => t.name != name)
  }

  /** Removing a category removes every copy of it and keeps the others, in order. */
  lemma RemoveCategorySpec(categories: seq<string>, cat: string)
    ensures var r := RemoveCategory(categories, cat);
      && (forall c :: c in r <==> c in categories && c != cat)
      && SeqUtil.IsSubsequence(r, categories)
      && forall c :: c != cat ==> multiset(r)[c] == multiset(categories)[c]
  {
    SeqUtil.FilterMembers(categories, c => c != cat);
    SeqUtil.FilterIsSubsequence(categories, c => c != cat);
    SeqUtil.FilterCounts(categories, c => c != cat);
  }

  /** Removing a tag removes every tag with that name and keeps the others, in order. */
  lemma RemoveTagSpec(tags: seq<Tag>, name: string)
    ensures var r := RemoveTag(tags, name);
      && (forall t :: t in r <==> t in tags && t.name != name)
      && SeqUtil.IsSubsequence(r, tags)
      && forall t: Tag :: t.name != name ==> multiset(r)[t] == multiset(tags)[t]
  {
    SeqUtil.FilterMembers(tags, (t: Tag) => t.name != name);
    SeqUtil.FilterIsSubsequence(tags, (t: Tag) => t.name != name);
    SeqUtil.FilterCounts(tags, (t: Tag) => t.name != name);
  }

  // ---- the form ----

  /** One extra section of the form. The page edits these objects in place. */
  class ExtraFieldEntry {
    var heading: string
    var description: string

    constructor ()
      ensures heading == "" && description == ""
    {
      heading := "";
      description := "";
    }
  }

  /** The two attributes of a section. */
  datatype SectionField = Heading | Description

  /** What the submit sends of the modelled fields. */
  datatype BlogDraft = BlogDraft(blogImage: string, categories: seq<string>, tags: seq<Tag>, extraFields: seq<ExtraField>)

  /** The page's state. */
  class AddBlogForm {
    var blogImage: string
    var categories: seq<string>
    var tags: seq<Tag>
    var extraFields: seq<ExtraFieldEntry>
    var categoryInput: string
    var tagInput: string

    /** Each section is its own object. */
    ghost predicate Valid()
      reads this
    {
      SeqUtil.Distinct(extraFields)
    }

    constructor ()
      ensures Valid()
      ensures blogImage == "" && categories == [] && tags == [] && extraFields == []
      ensures categoryInput == "" && tagInput == ""
    {
      blogImage := "";
      categories := [];
      tags := [];
      extraFields := [];
      categoryInput := "";
      tagInput := "";
    }

    /** The sections as values. */
    function Sections(): seq<ExtraField>
      reads this, extraFields
    {
      seq(|extraFields|, i reads this, extraFields requires 0 <= i < |extraFields| =>
        ExtraField(extraFields[i].heading, extraFields[i].description))
    }

    /** `addCategory`. */
    method AddCategoryClicked()
      modifies this
      ensures (categories, categoryInput) == AddCategory(old(categories), old(categoryInput))
      ensures blogImage == old(blogImage) && tags == old(tags) && extraFields == old(extraFields)
      ensures tagInput == old(tagInput)
    {
      if Trim(categoryInput) != "" && categoryInput !in categories {
        categories := categories + [Trim(categoryInput)];
        categoryInput := "";
      }
    }

    /** `addTag`. */
    method AddTagClicked()
      modifies this
      ensures (tags, tagInput) == AddTag(old(tags), old(tagInput))
      ensures blogImage == old(blogImage) && categories == old(categories) && extraFields == old(extraFields)
      ensures categoryInput == old(categoryInput)
    {
      if Trim(tagInput) != "" {
        tags := tags + [Tag(Trim(tagInput))];
        tagInput := "";
      }
    }

    /** The remove button of category `cat`. */
    method RemoveCategoryClicked(cat: string)
      modifies this
      ensures categories == RemoveCategory(old(categories), cat)
      ensures blogImage == old(blogImage) && tags == old(tags) && extraFields == old(extraFields)
      ensures categoryInput == old(categoryInput) && tagInput == old(tagInput)
    {
      categories := RemoveCategory(categories, cat);
    }

    /** The remove button of tag `name`. */
    method RemoveTagClicked(name: string)
      modifies this
      ensures tags == RemoveTag(old(tags), name)
      ensures blogImage == old(blogImage) && categories == old(categories) && extraFields == old(extraFields)
      ensures categoryInput == old(categoryInput) && tagInput == old(tagInput)
    {
      tags := RemoveTag(tags, name);
    }

    /** `addExtraField`: one new empty section at the end. */
    method AddExtraField()
      requires Valid()
      modifies this
      ensures Valid()
      ensures |extraFields| == |old(extraFields)| + 1 && extraFields[..|old(extraFields)|] == old(extraFields)
      ensures fresh(extraFields[|extraFields| - 1])
      ensures Sections() == old(Sections()) + [ExtraField("", "")]
      ensures blogImage == old(blogImage) && categories == old(categories) && tags == old(tags)
    {
      var entry := new ExtraFieldEntry();
      extraFields := extraFields + [entry];
    }

    /** `updateExtraField(index, field, value)`: the section object at `index` is changed in place;
        the list, the other attribute and every other section stay as they were. */
    method UpdateExtraField(index: int, field: SectionField, value: string)
      requires Valid() && 0 <= index < |extraFields|
      modifies extraFields[index]
      ensures Valid()
      ensures Sections() == old(Sections())[index := match field
        case Heading => ExtraField(value, old(extraFields[index].description))
        case Description => ExtraField(old(extraFields[index].heading), value)]
    {
      var updated := extraFields;
      match field
      case Heading => updated[index].heading := value;
      case Description => updated[index].description := value;
    }

    /** `removeExtraField(index)`; `confirmed` is the answer to the confirmation dialog. */
    method RemoveExtraField(index: int, confirmed: bool)
      requires Valid()
      modifies this
      ensures Valid()
      ensures extraFields == if confirmed then SeqUtil.DropIndex(old(extraFields), index) else old(extraFields)
      ensures blogImage == old(blogImage) && categories == old(categories) && tags == old(tags)
    {
      if confirmed {
        SeqUtil.DropIndexDistinct(extraFields, index);
        extraFields := SeqUtil.DropIndex(extraFields, index);
      }
    }

    /** The end of `handleImageUpload`: on success the returned URL becomes the featured image. */
    method ImageUploaded(ok: bool, imageUrl: string)
      modifies this
      ensures blogImage == if ok then imageUrl else old(blogImage)
      ensures categories == old(categories) && tags == old(tags) && extraFields == old(extraFields)
    {
      if ok {
        blogImage := imageUrl;
      }
    }

    /** `handleSubmit`: nothing is sent while there is no featured image; otherwise the form is
        sent as it stands. */
    method HandleSubmit() returns (sent: Option<BlogDraft>)
      ensures sent.None? <==> blogImage == ""
      ensures sent.Some? ==> sent.value == BlogDraft(blogImage, categories, tags, Sections())
    {
      if blogImage == "" {
        return None;
      }
      sent := Some(BlogDraft(blogImage, categories, tags, Sections()));
    }
  }
}
