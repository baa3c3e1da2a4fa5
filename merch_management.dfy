/**
 * The admin merchandise editor of `components/admin/merch-management.tsx`:
 * the form state with its lists of image and size fields, the handlers that
 * edit those lists, and the save request a submit sends.
 */
module MerchManagement {
  import opened Common
  import opened ClientCommon

  /** A stored merchandise item as the editor receives it; `id` is the rendered `_id`. */
  datatype MerchItem = MerchItem(id: string, title: string, description: string,
                                 images: seq<string>, sizes: seq<string>, price: int)

  /** `formData`: every field is the text of an input; `price` too. */
  datatype FormData = FormData(title: string, description: string, images: seq<string>,
                               sizes: seq<string>, price: string)

  /** The empty form: one blank image field and one blank size field. */
  const EmptyForm: FormData := FormData("", "", [""], [""], "")

  /** The form always shows at least one image field and one size field. */
  predicate FieldsPresent(f: FormData)
  {
    |f.images| >= 1 && |f.sizes| >= 1
  }

  // ---------------------------------------------------------------------------
  // The list-field helpers
  // ---------------------------------------------------------------------------

  /** `addImageField` / `addSizeField`: one more blank field at the end. */
  function AddField(fields: seq<string>): (r: seq<string>)
    ensures |r| == |fields| + 1 && r[..|fields|] == fields && r[|fields|] == ""
  {
    fields + [""]
  }

  /** `fields.filter((_, i) => i !== index)`: an index out of range removes nothing. */
  function WithoutIndex(fields: seq<string>, index: int): (r: seq<string>)
    ensures 0 <= index < |fields| ==> |r| == |fields| - 1
    ensures !(0 <= index < |fields|) ==> r == fields
    ensures forall k :: 0 <= k < |r| ==> r[k] == fields[if 0 <= index <= k then k + 1 else k]
  {
    if 0 <= index < |fields| then fields[..index] + fields[index + 1..] else fields
  }

  /** `removeImageField` / `removeSizeField`: the list without that field, or one blank field if none is left. */
  function RemoveField(fields: seq<string>, index: int): (r: seq<string>)
    ensures |r| >= 1
  {
    var rest := WithoutIndex(fields, index);
    if |rest| > 0 then rest else [""]
  }

  /** Removing a field deletes exactly that index while another field remains; removing the last one leaves a blank field. */
  lemma RemoveFieldCases(fields: seq<string>, index: int)
    requires 0 <= index < |fields|
    ensures |fields| > 1 ==> RemoveField(fields, index) == fields[..index] + fields[index + 1..]
    ensures |fields| == 1 ==> RemoveField(fields, 0) == [""]
  {
  }

  /** Removing the field just added gives back the list from before the addition. */
  lemma AddThenRemoveRestores(fields: seq<string>)
    requires |fields| >= 1
    ensures RemoveField(AddField(fields), |fields|) == fields
  {
    assert AddField(fields)[..|fields|] == fields;
  }

  /** `const copy = [...fields]; copy[index] = value` */
  function SetField(fields: seq<string>, index: nat, value: string): (r: seq<string>)
    requires index < |fields|
    ensures |r| == |fields| && r[index] == value
    ensures forall k :: 0 <= k < |fields| && k != index ==> r[k] == fields[k]
  {
    fields[index := value]
  }

  predicate NonBlank(s: string)
  {
    Trim(s) != ""
  }

  /** `fields.filter((x) => x.trim() !== "")` */
  function Cleaned(fields: seq<string>): seq<string>
  {
    Filter(NonBlank, fields)
  }

  /**
   * Cleaning keeps exactly the fields that hold a non-whitespace character
   * and works piecewise, so the kept fields keep their relative order.
   */
  lemma CleanedProperties(fields: seq<string>, more: seq<string>)
    ensures forall k :: 0 <= k < |Cleaned(fields)| ==>
      Cleaned(fields)[k] in fields && exists j :: 0 <= j < |Cleaned(fields)[k]| && !IsWhitespace(Cleaned(fields)[k][j])
    ensures forall k :: 0 <= k < |fields| && NonBlank(fields[k]) ==> fields[k] in Cleaned(fields)
    ensures Cleaned(fields + more) == Cleaned(fields) + Cleaned(more)
  {
    FilterAppend(NonBlank, fields, more);
    forall k | 0 <= k < |Cleaned(fields)|
      ensures exists j :: 0 <= j < |Cleaned(fields)[k]| && !IsWhitespace(Cleaned(fields)[k][j])
    {
      TrimEmptyIffBlank(Cleaned(fields)[k]);
    }
  }

  /** A list of blank fields is cleaned to the empty list. */
  lemma {:induction false} BlankFieldsDropped(fields: seq<string>)
    requires forall k :: 0 <= k < |fields| ==> Trim(fields[k]) == ""
    ensures Cleaned(fields) == []
  {
    if fields != [] {
      BlankFieldsDropped(fields[1..]);
    }
  }

  // ---------------------------------------------------------------------------
  // Submit, edit and reset
  // ---------------------------------------------------------------------------

  /** The JSON body of a save; `price` is `Number.parseFloat(formData.price)`. */
  datatype SubmitData = SubmitData(title: string, description: string, images: seq<string>,
                                   sizes: seq<string>, price: int)

  /** The request a submit sends: its URL, its method and its body. */
  datatype SaveRequest = SaveRequest(url: string, httpMethod: string, body: SubmitData)

  /** The editor's state. */
  datatype EditorState = EditorState(merch: seq<MerchItem>, isDialogOpen: bool,
                                     editingMerch: Option<MerchItem>, formData: FormData)

  /** The request `handleSubmit` builds; `parsePrice` stands for `Number.parseFloat`. */
  function SaveRequestFor(st: EditorState, parsePrice: string -> int): SaveRequest
  {
    var f := st.formData;
    var body := SubmitData(f.title, f.description, Cleaned(f.images), Cleaned(f.sizes), parsePrice(f.price));
    match st.editingMerch
    case Some(m) => SaveRequest("/api/admin/merch/" + m.id, "PUT", body)
    case None => SaveRequest("/api/admin/merch", "POST", body)
  }

  /**
   * An edit is saved with PUT to the item's own URL and a new item with POST
   * to the collection; the body carries the cleaned lists and the form's text.
   */
  lemma SaveRequestTargets(st: EditorState, parsePrice: string -> int)
    ensures var r := SaveRequestFor(st, parsePrice);
      (st.editingMerch.Some? ==> r.httpMethod == "PUT" && r.url == "/api/admin/merch/" + st.editingMerch.value.id)
      && (st.editingMerch.None? ==> r.httpMethod == "POST" && r.url == "/api/admin/merch")
      && r.body.images == Cleaned(st.formData.images) && r.body.sizes == Cleaned(st.formData.sizes)
      && r.body.title == st.formData.title && r.body.description == st.formData.description
  {
  }

  /** `resetForm` */
  function ResetSpec(st: EditorState): (r: EditorState)
    ensures r.formData == EmptyForm && r.editingMerch.None?
    ensures r.merch == st.merch && r.isDialogOpen == st.isDialogOpen
  {
    st.(formData := EmptyForm, editingMerch := None)
  }

  /**
   * The state after `handleSubmit`: on `response.ok`, the refreshed list
   * (`None` when that fetch fails), a closed dialog and a reset form;
   * otherwise nothing changes.
   */
  function SubmitState(st: EditorState, outcome: FetchOutcome, refreshed: Option<seq<MerchItem>>): EditorState
  {
    if outcome.Ok? then
      var merch := if refreshed.Some? then refreshed.value else st.merch;
      EditorState(merch, false, None, EmptyForm)
    else st
  }

  /** `handleSubmit`: the request it sends and the state afterwards. */
  function SubmitSpec(st: EditorState, parsePrice: string -> int, outcome: FetchOutcome,
                      refreshed: Option<seq<MerchItem>>): (SaveRequest, EditorState)
  {
    (SaveRequestFor(st, parsePrice), SubmitState(st, outcome, refreshed))
  }

  /** A saved item closes the dialog and leaves the empty form; a failed save changes nothing. */
  lemma SubmitOutcomes(st: EditorState, parsePrice: string -> int, outcome: FetchOutcome,
                       refreshed: Option<seq<MerchItem>>)
    ensures var st' := SubmitSpec(st, parsePrice, outcome, refreshed).1;
      (outcome.Ok? ==> !st'.isDialogOpen && st'.formData == EmptyForm && st'.editingMerch.None?)
      && (!outcome.Ok? ==> st' == st)
  {
  }

  /** The save sent for an edited item goes to that item's URL with PUT; a new one is POSTed. */
  lemma EditThenSubmitTargetsItem(st: EditorState, item: MerchItem, parsePrice: string -> int,
                                  outcome: FetchOutcome, refreshed: Option<seq<MerchItem>>)
    ensures SubmitSpec(EditSpec(st, item), parsePrice, outcome, refreshed).0.url == "/api/admin/merch/" + item.id
    ensures SubmitSpec(EditSpec(st, item), parsePrice, outcome, refreshed).0.httpMethod == "PUT"
    ensures SubmitSpec(ResetSpec(st), parsePrice, outcome, refreshed).0.httpMethod == "POST"
  {
  }

  /** The fields of a form for an item: its lists, or one blank field for an empty list. */
  function FieldsFor(values: seq<string>): (r: seq<string>)
    ensures |r| >= 1
    ensures |values| > 0 ==> r == values
    ensures |values| == 0 ==> r == [""]
  {
    if |values| > 0 then values else [""]
  }

  /** `handleEdit(item)` */
  function EditSpec(st: EditorState, item: MerchItem): (r: EditorState)
    ensures r.editingMerch == Some(item) && r.isDialogOpen && FieldsPresent(r.formData)
    ensures r.formData.title == item.title && r.formData.description == item.description
    ensures r.formData.price == IntToString(item.price)
    ensures r.merch == st.merch
  {
    st.(editingMerch := Some(item), isDialogOpen := true,
        formData := FormData(item.title, item.description, FieldsFor(item.images), FieldsFor(item.sizes),
                             IntToString(item.price)))
  }

  /**
   * Editing an item and saving the unchanged form sends back the item's
   * non-blank images and sizes, in their order.
   */
  lemma EditRoundTrip(st: EditorState, item: MerchItem, parsePrice: string -> int)
    requires forall k :: 0 <= k < |item.images| ==> NonBlank(item.images[k])
    requires forall k :: 0 <= k < |item.sizes| ==> NonBlank(item.sizes[k])
    ensures SaveRequestFor(EditSpec(st, item), parsePrice).body.images == item.images
    ensures SaveRequestFor(EditSpec(st, item), parsePrice).body.sizes == item.sizes
  {
    FilterKeepsAll(NonBlank, item.images);
    FilterKeepsAll(NonBlank, item.sizes);
    BlankFieldsDropped([""]);
  }

  /** The component's state. */
  class Editor {
    var merch: seq<MerchItem>
    var isDialogOpen: bool
    var editingMerch: Option<MerchItem>
    var formData: FormData

    function State(): EditorState
      reads this
    {
      EditorState(merch, isDialogOpen, editingMerch, formData)
    }

    ghost predicate Valid()
      reads this
    {
      FieldsPresent(formData)
    }

    constructor ()
      ensures Valid() && State() == EditorState([], false, None, EmptyForm)
    {
      merch := [];
      isDialogOpen := false;
      editingMerch := None;
      formData := EmptyForm;
    }

    method AddImageField()
      requires Valid()
      modifies this`formData
      ensures Valid() && formData == old(formData).(images := AddField(old(formData.images)))
    {
      formData := formData.(images := formData.images + [""]);
    }

    method RemoveImageField(index: int)
      requires Valid()
      modifies this`formData
      ensures Valid() && formData == old(formData).(images := RemoveField(old(formData.images), index))
    {
      var newImages := WithoutIndex(formData.images, index);
      formData := formData.(images := if |newImages| > 0 then newImages else [""]);
    }

    method AddSizeField()
      requires Valid()
      modifies this`formData
      ensures Valid() && formData == old(formData).(sizes := AddField(old(formData.sizes)))
    {
      formData := formData.(sizes := formData.sizes + [""]);
    }

    method RemoveSizeField(index: int)
      requires Valid()
      modifies this`formData
      ensures Valid() && formData == old(formData).(sizes := RemoveField(old(formData.sizes), index))
    {
      var newSizes := WithoutIndex(formData.sizes, index);
      formData := formData.(sizes := if |newSizes| > 0 then newSizes else [""]);
    }

    /** Typing into image field `index`. */
    method UpdateImage(index: nat, value: string)
      requires Valid() && index < |formData.images|
      modifies this`formData
      ensures Valid() && formData == old(formData).(images := SetField(old(formData.images), index, value))
    {
      var newImages := formData.images;
      newImages := newImages[index := value];
      formData := formData.(images := newImages);
    }

    /** Typing into size field `index`. */
    method UpdateSize(index: nat, value: string)
      requires Valid() && index < |formData.sizes|
      modifies this`formData
      ensures Valid() && formData == old(formData).(sizes := SetField(old(formData.sizes), index, value))
    {
      var newSizes := formData.sizes;
      newSizes := newSizes[index := value];
      formData := formData.(sizes := newSizes);
    }

    method HandleEdit(item: MerchItem)
      modifies this
      ensures Valid() && State() == EditSpec(old(State()), item)
    {
      editingMerch := Some(item);
      formData := FormData(item.title, item.description,
                           if |item.images| > 0 then item.images else [""],
                           if |item.sizes| > 0 then item.sizes else [""],
                           IntToString(item.price));
      isDialogOpen := true;
    }

    method ResetForm()
      modifies this
      ensures Valid() && State() == ResetSpec(old(State()))
    {
      formData := EmptyForm;
      editingMerch := None;
    }

    method HandleSubmit(parsePrice: string -> int, outcome: FetchOutcome, refreshed: Option<seq<MerchItem>>)
      returns (request: SaveRequest)
      requires Valid()
      modifies this
      ensures Valid()
      ensures request == SaveRequestFor(old(State()), parsePrice)
      ensures State() == SubmitState(old(State()), outcome, refreshed)
    {
      request := SaveRequestFor(State(), parsePrice);
      if outcome.Ok? {
        if refreshed.Some? {
          merch := refreshed.value;
        }
        isDialogOpen := false;
        formData := EmptyForm;
        editingMerch := None;
      }
    }
  }
}
