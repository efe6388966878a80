/** The add-service page of the admin console: the string-list input used throughout the
    form, the condition and treatment repeaters and the backlink-schema editor. The handlers
    copy the top-level list and then change the chosen entry object in place, so entries are
    objects here; the objects nested inside an entry (a link, a treatment's candidate and
    evaluation sections) are reachable only through that entry and are kept as values of it. */
module ServiceEditor {
  import opened Wrappers
  import opened Text
  import opened Types
  import SeqUtil

  // ---- the string-list input ----

  /** `handleAdd`'s call to `onChange`: the list with the trimmed input appended, or no call at all
      when the input is blank. */
  function AddItem(items: seq<string>, input: string): Option<seq<string>> {
    if Trim(input) != "" then Some(items + [Trim(input)]) else None
  }

  /** The remove button of item `idx`: `items.filter((_, i) => i !== idx)`. */
  function RemoveItem(items: seq<string>, idx: int): seq<string> {
    SeqUtil.DropIndex(items, idx)
  }

  /** Every item is non-empty and has no surrounding white space. */
  predicate AllTrimmed(items: seq<string>) {
    forall i :: 0 <= i < |items| ==> items[i] != "" && Trim(items[i]) == items[i]
  }

  /** A blank input adds nothing; otherwise exactly the trimmed input is appended after the
      existing items, so a list built with this input holds only trimmed, non-empty items. */
  lemma AddItemSpec(items: seq<string>, input: string)
    ensures AddItem(items, input).None? <==> AllSpace(input)
    ensures AddItem(items, input).Some? ==>
      var r := AddItem(items, input).value;
      |r| == |items| + 1 && r[..|items|] == items && r[|items|] == Trim(input)
    ensures AllTrimmed(items) && AddItem(items, input).Some? ==> AllTrimmed(AddItem(items, input).value)
  {
    TrimSpec(input);
  }

  /** Removal takes out exactly item `idx` and keeps the rest in order; removing an item just
      added gives the list back. */
  lemma RemoveItemSpec(items: seq<string>, idx: int, x: string)
    ensures RemoveItem(items, idx) == if 0 <= idx < |items| then items[..idx] + items[idx + 1..] else items
    ensures RemoveItem(items + [x], |items|) == items
  {
    SeqUtil.DropIndexSlices(items, idx);
    SeqUtil.DropIndexSlices(items + [x], |items|);
    assert (items + [x])[..|items|] == items;
  }

  /** One string-list input box. The list itself belongs to the form; the box only keeps what is typed. */
  class ArrayInput {
    var input: string

    constructor ()
      ensures input == ""
    {
      input := "";
    }

    /** `handleAdd` on the list `items`: returns the list passed to `onChange`, if it is called. */
    method HandleAdd(items: seq<string>) returns (change: Option<seq<string>>)
      modifies this
      ensures change == AddItem(items, old(input))
      ensures input == if change.Some? then "" else old(input)
    {
      if Trim(input) != "" {
        change := Some(items + [Trim(input)]);
        input := "";
      } else {
        change := None;
      }
    }
  }

  // ---- conditions ----

  /** One condition of the form. */
  class ConditionEntry {
    var title: string
    var description: string
    var symptoms: seq<string>
    var image: string

    constructor ()
      ensures View() == ServiceCondition("", "", [], "")
    {
      title, description, symptoms, image := "", "", [], "";
    }

    function View(): ServiceCondition
      reads this
    {
      ServiceCondition(title, description, symptoms, image)
    }
  }

  /** The text attributes of a condition. */
  datatype ConditionText = ConditionTitle | ConditionDescription | ConditionImage

  function ConditionTextOf(c: ServiceCondition, f: ConditionText): string {
    match f
    case ConditionTitle => c.title
    case ConditionDescription => c.description
    case ConditionImage => c.image
  }

  function WithConditionText(c: ServiceCondition, f: ConditionText, v: string): ServiceCondition {
    match f
    case ConditionTitle => c.(title := v)
    case ConditionDescription => c.(description := v)
    case ConditionImage => c.(image := v)
  }

  /** Editing one attribute of a condition sets that attribute and leaves the others, the symptoms
      included, as they were. */
  lemma WithConditionTextSetsOne(c: ServiceCondition, f: ConditionText, g: ConditionText, v: string)
    ensures ConditionTextOf(WithConditionText(c, f, v), g) == if g == f then v else ConditionTextOf(c, g)
    ensures WithConditionText(c, f, v).symptoms == c.symptoms
  {
  }

  // ---- treatments ----

  /** A treatment as the form holds it. */
  datatype TreatmentDraft = TreatmentDraft(title: string, description: string, instructions: seq<string>,
                                           procedureSteps: seq<string>, idealCandidate: IdealCandidate,
                                           evaluationProcess: EvaluationProcess)

  const EmptyTreatment := TreatmentDraft("", "", [], [], IdealCandidate("", "", []), EvaluationProcess("", "", [], ""))

  /** One treatment of the form. */
  class TreatmentEntry {
    var title: string
    var description: string
    var instructions: seq<string>
    var procedureSteps: seq<string>
    var idealCandidate: IdealCandidate
    var evaluationProcess: EvaluationProcess

    constructor ()
      ensures View() == EmptyTreatment
    {
      title, description, instructions, procedureSteps := "", "", [], [];
      idealCandidate := IdealCandidate("", "", []);
      evaluationProcess := EvaluationProcess("", "", [], "");
    }

    function View(): TreatmentDraft
      reads this
    {
      TreatmentDraft(title, description, instructions, procedureSteps, idealCandidate, evaluationProcess)
    }
  }

  /** The text inputs of a treatment, nested ones included. */
  datatype TreatmentText =
    | TreatmentTitle | TreatmentDescription
    | CandidateTitle | CandidateDescription
    | EvaluationTitle | EvaluationDescription | EvaluationBottom

  /** The string lists of a treatment, nested ones included. */
  datatype TreatmentList = Instructions | ProcedureSteps | CandidateSteps | EvaluationSteps

  function TextOf(t: TreatmentDraft, f: TreatmentText): string {
    match f
    case TreatmentTitle => t.title
    case TreatmentDescription => t.description
    case CandidateTitle => t.idealCandidate.title
    case CandidateDescription => t.idealCandidate.description
    case EvaluationTitle => t.evaluationProcess.title
    case EvaluationDescription => t.evaluationProcess.description
    case EvaluationBottom => t.evaluationProcess.bottomDescription
  }

  function ListOf(t: TreatmentDraft, f: TreatmentList): seq<string> {
    match f
    case Instructions => t.instructions
    case ProcedureSteps => t.procedureSteps
    case CandidateSteps => t.idealCandidate.steps
    case EvaluationSteps => t.evaluationProcess.steps
  }

  function WithText(t: TreatmentDraft, f: TreatmentText, v: string): TreatmentDraft {
    match f
    case TreatmentTitle => t.(title := v)
    case TreatmentDescription => t.(description := v)
    case CandidateTitle => t.(idealCandidate := t.idealCandidate.(title := v))
    case CandidateDescription => t.(idealCandidate := t.idealCandidate.(description := v))
    case EvaluationTitle => t.(evaluationProcess := t.evaluationProcess.(title := v))
    case EvaluationDescription => t.(evaluationProcess := t.evaluationProcess.(description := v))
    case EvaluationBottom => t.(evaluationProcess := t.evaluationProcess.(bottomDescription := v))
  }

  function WithList(t: TreatmentDraft, f: TreatmentList, items: seq<string>): TreatmentDraft {
    match f
    case Instructions => t.(instructions := items)
    case ProcedureSteps => t.(procedureSteps := items)
    case CandidateSteps => t.(idealCandidate := t.idealCandidate.(steps := items))
    case EvaluationSteps => t.(evaluationProcess := t.evaluationProcess.(steps := items))
  }

  /** Editing one input of a treatment sets that input and leaves every other input and every list as it was. */
  lemma WithTextSetsOne(t: TreatmentDraft, f: TreatmentText, g: TreatmentText, h: TreatmentList, v: string)
    ensures TextOf(WithText(t, f, v), g) == if g == f then v else TextOf(t, g)
    ensures ListOf(WithText(t, f, v), h) == ListOf(t, h)
  {
  }

  /** Replacing one list of a treatment sets that list and leaves every other list and every input as it was. */
  lemma WithListSetsOne(t: TreatmentDraft, f: TreatmentList, h: TreatmentList, g: TreatmentText, items: seq<string>)
    ensures ListOf(WithList(t, f, items), h) == if h == f then items else ListOf(t, h)
    ensures TextOf(WithList(t, f, items), g) == TextOf(t, g)
  {
  }

  // ---- backlink schema ----

  /** One link of a backlink block. */
  datatype Backlink = Backlink(name: string, url: string)

  datatype LinkField = LinkName | LinkUrl

  function WithLinkField(l: Backlink, f: LinkField, v: string): Backlink {
    match f
    case LinkName => l.(name := v)
    case LinkUrl => l.(url := v)
  }

  /** A backlink block as a value. */
  datatype BlockDraft = BlockDraft(headline: string, links: seq<Backlink>)

  /** One block of the backlink schema: a headline and its links. */
  class BacklinkBlock {
    var headline: string
    var links: seq<Backlink>

    /** A new block has an empty headline and exactly one empty link. */
    constructor ()
      ensures headline == "" && links == [Backlink("", "")]
    {
      headline := "";
      links := [Backlink("", "")];
    }

    function View(): BlockDraft
      reads this
    {
      BlockDraft(headline, links)
    }
  }

  // ---- the form ----

  /** The repeaters of the add-service form. */
  class AddServiceForm {
    var conditions: seq<ConditionEntry>
    var treatments: seq<TreatmentEntry>
    var backlinkSchema: seq<BacklinkBlock>

    /** Each entry is its own object. */
    ghost predicate Valid()
      reads this
    {
      SeqUtil.Distinct(conditions) && SeqUtil.Distinct(treatments) && SeqUtil.Distinct(backlinkSchema)
    }

    constructor ()
      ensures Valid() && conditions == [] && treatments == [] && backlinkSchema == []
    {
      conditions, treatments, backlinkSchema := [], [], [];
    }

    function Conditions(): seq<ServiceCondition>
      reads this, conditions
    {
      seq(|conditions|, i reads this, conditions requires 0 <= i < |conditions| => conditions[i].View())
    }

    function Treatments(): seq<TreatmentDraft>
      reads this, treatments
    {
      seq(|treatments|, i reads this, treatments requires 0 <= i < |treatments| => treatments[i].View())
    }

    function Backlinks(): seq<BlockDraft>
      reads this, backlinkSchema
    {
      seq(|backlinkSchema|, i reads this, backlinkSchema requires 0 <= i < |backlinkSchema| => backlinkSchema[i].View())
    }

    /** Add Condition: one empty condition at the end. */
    method AddCondition()
      requires Valid()
      modifies this
      ensures Valid()
      ensures |conditions| == |old(conditions)| + 1 && conditions[..|old(conditions)|] == old(conditions)
      ensures fresh(conditions[|conditions| - 1])
      ensures Conditions() == old(Conditions()) + [ServiceCondition("", "", [], "")]
      ensures treatments == old(treatments) && backlinkSchema == old(backlinkSchema)
    {
      var entry := new ConditionEntry();
      conditions := conditions + [entry];
    }

    /** The delete button of condition `idx`. */
    method RemoveCondition(idx: int)
      requires Valid()
      modifies this
      ensures Valid()
      ensures conditions == SeqUtil.DropIndex(old(conditions), idx)
      ensures treatments == old(treatments) && backlinkSchema == old(backlinkSchema)
    {
      SeqUtil.DropIndexDistinct(conditions, idx);
      conditions := SeqUtil.DropIndex(conditions, idx);
    }

    /** A text input of condition `idx`: that condition object changes in place, nothing else does. */
    method EditConditionText(idx: int, f: ConditionText, v: string)
      requires Valid() && 0 <= idx < |conditions|
      modifies conditions[idx]
      ensures Conditions() == old(Conditions())[idx := WithConditionText(old(Conditions())[idx], f, v)]
    {
      var list := conditions;
      match f
      case ConditionTitle => list[idx].title := v;
      case ConditionDescription => list[idx].description := v;
      case ConditionImage => list[idx].image := v;
    }

    /** The symptoms list's `onChange` for condition `idx`. */
    method SetSymptoms(idx: int, items: seq<string>)
      requires Valid() && 0 <= idx < |conditions|
      modifies conditions[idx]
      ensures Conditions() == old(Conditions())[idx := old(Conditions())[idx].(symptoms := items)]
    {
      var list := conditions;
      list[idx].symptoms := items;
    }

    /** Add Treatment: one default-shaped treatment at the end. */
    method AddTreatment()
      requires Valid()
      modifies this
      ensures Valid()
      ensures |treatments| == |old(treatments)| + 1 && treatments[..|old(treatments)|] == old(treatments)
      ensures fresh(treatments[|treatments| - 1])
      ensures Treatments() == old(Treatments()) + [EmptyTreatment]
      ensures conditions == old(conditions) && backlinkSchema == old(backlinkSchema)
    {
      var entry := new TreatmentEntry();
      treatments := treatments + [entry];
    }

    /** The delete button of treatment `idx`. */
    method RemoveTreatment(idx: int)
      requires Valid()
      modifies this
      ensures Valid()
      ensures treatments == SeqUtil.DropIndex(old(treatments), idx)
      ensures conditions == old(conditions) && backlinkSchema == old(backlinkSchema)
    {
      SeqUtil.DropIndexDistinct(treatments, idx);
      treatments := SeqUtil.DropIndex(treatments, idx);
    }

    /** A text input of treatment `idx`. */
    method EditTreatmentText(idx: int, f: TreatmentText, v: string)
      requires Valid() && 0 <= idx < |treatments|
      modifies treatments[idx]
      ensures Treatments() == old(Treatments())[idx := WithText(old(Treatments())[idx], f, v)]
    {
      var list := treatments;
      match f
      case TreatmentTitle => list[idx].title := v;
      case TreatmentDescription => list[idx].description := v;
      case CandidateTitle => list[idx].idealCandidate := list[idx].idealCandidate.(title := v);
      case CandidateDescription => list[idx].idealCandidate := list[idx].idealCandidate.(description := v);
      case EvaluationTitle => list[idx].evaluationProcess := list[idx].evaluationProcess.(title := v);
      case EvaluationDescription => list[idx].evaluationProcess := list[idx].evaluationProcess.(description := v);
      case EvaluationBottom => list[idx].evaluationProcess := list[idx].evaluationProcess.(bottomDescription := v);
    }

    /** A string list's `onChange` for treatment `idx`. */
    method EditTreatmentList(idx: int, f: TreatmentList, items: seq<string>)
      requires Valid() && 0 <= idx < |treatments|
      modifies treatments[idx]
      ensures Treatments() == old(Treatments())[idx := WithList(old(Treatments())[idx], f, items)]
    {
      var list := treatments;
      match f
      case Instructions => list[idx].instructions := items;
      case ProcedureSteps => list[idx].procedureSteps := items;
      case CandidateSteps => list[idx].idealCandidate := list[idx].idealCandidate.(steps := items);
      case EvaluationSteps => list[idx].evaluationProcess := list[idx].evaluationProcess.(steps := items);
    }

    /** `addBacklinkSchemaBlock`. */
    method AddBacklinkSchemaBlock()
      requires Valid()
      modifies this
      ensures Valid()
      ensures |backlinkSchema| == |old(backlinkSchema)| + 1 && backlinkSchema[..|old(backlinkSchema)|] == old(backlinkSchema)
      ensures fresh(backlinkSchema[|backlinkSchema| - 1])
      ensures Backlinks() == old(Backlinks()) + [BlockDraft("", [Backlink("", "")])]
      ensures conditions == old(conditions) && treatments == old(treatments)
    {
      var block := new BacklinkBlock();
      backlinkSchema := backlinkSchema + [block];
    }

    /** `removeBacklinkSchemaBlock(index)`. */
    method RemoveBacklinkSchemaBlock(index: int)
      requires Valid()
      modifies this
      ensures Valid()
      ensures backlinkSchema == SeqUtil.DropIndex(old(backlinkSchema), index)
      ensures conditions == old(conditions) && treatments == old(treatments)
    {
      SeqUtil.DropIndexDistinct(backlinkSchema, index);
      backlinkSchema := SeqUtil.DropIndex(backlinkSchema, index);
    }

    /** `updateBacklinkHeadline(index, value)`. */
    method UpdateBacklinkHeadline(index: int, value: string)
      requires Valid() && 0 <= index < |backlinkSchema|
      modifies backlinkSchema[index]
      ensures Backlinks() == old(Backlinks())[index := old(Backlinks())[index].(headline := value)]
    {
      var updated := backlinkSchema;
      updated[index].headline := value;
    }

    /** `addBacklinkLink(blockIndex)`: one empty link at the end of that block only. */
    method AddBacklinkLink(blockIndex: int)
      requires Valid() && 0 <= blockIndex < |backlinkSchema|
      modifies backlinkSchema[blockIndex]
      ensures Backlinks() == old(Backlinks())[blockIndex :=
        old(Backlinks())[blockIndex].(links := old(Backlinks())[blockIndex].links + [Backlink("", "")])]
    {
      var updated := backlinkSchema;
      updated[blockIndex].links := updated[blockIndex].links + [Backlink("", "")];
    }

    /** `removeBacklinkLink(blockIndex, linkIndex)`: only that link of that block goes. */
    method RemoveBacklinkLink(blockIndex: int, linkIndex: int)
      requires Valid() && 0 <= blockIndex < |backlinkSchema|
      modifies backlinkSchema[blockIndex]
      ensures Backlinks() == old(Backlinks())[blockIndex :=
        old(Backlinks())[blockIndex].(links := SeqUtil.DropIndex(old(Backlinks())[blockIndex].links, linkIndex))]
    {
      var updated := backlinkSchema;
      updated[blockIndex].links := SeqUtil.DropIndex(updated[blockIndex].links, linkIndex);
    }

    /** `updateBacklinkLink(blockIndex, linkIndex, field, value)`: only that attribute of that link changes. */
    method UpdateBacklinkLink(blockIndex: int, linkIndex: int, field: LinkField, value: string)
      requires Valid() && 0 <= blockIndex < |backlinkSchema| && 0 <= linkIndex < |backlinkSchema[blockIndex].links|
      modifies backlinkSchema[blockIndex]
      ensures var oldLinks := old(Backlinks())[blockIndex].links;
        Backlinks() == old(Backlinks())[blockIndex := old(Backlinks())[blockIndex].(links :=
          oldLinks[linkIndex := WithLinkField(oldLinks[linkIndex], field, value)])]
    {
      var updated := backlinkSchema;
      var links := updated[blockIndex].links;
      updated[blockIndex].links := links[linkIndex := WithLinkField(links[linkIndex], field, value)];
    }
  }
}
