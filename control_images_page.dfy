/** The administration page of the before/after gallery: the upload form (create or edit),
    the delete button and the resolution of stored image paths. */
module ControlImagesPage {
  import opened Wrappers
  import opened Strings
  import opened Responses
  import opened ClinicalImagesService

  /** A file chosen in a file input; only its identity matters here. */
  datatype File = File(name: string)

  /** An image as the API lists it. */
  datatype ClinicalImage = ClinicalImage(id: int, title: string, description: Option<string>,
                                         beforeImage: string, afterImage: string, createdAt: string)

  /** One entry of a multipart form: a text value or a file. */
  datatype PartValue = Text(text: string) | Blob(file: File)
  datatype Part = Part(key: string, value: PartValue)

  /** The value stored under `key`, if any (keys are never repeated here). */
  function Lookup(parts: seq<Part>, key: string): Option<PartValue> {
    if parts == [] then None
    else if parts[0].key == key then Some(parts[0].value)
    else Lookup(parts[1..], key)
  }

  /** The `append` sequence of the submit handler. */
  function FormParts(title: string, description: string, before: Option<File>, after: Option<File>): seq<Part> {
    [Part("title", Text(title))] + (DescriptionPart(description) + (ImagePart("before_image", before) + ImagePart("after_image", after)))
  }

  function DescriptionPart(description: string): seq<Part> {
    if description != "" then [Part("description", Text(description))] else []
  }

  function ImagePart(key: string, file: Option<File>): seq<Part> {
    if file.Some? then [Part(key, Blob(file.value))] else []
  }

  /** The title always goes first; the description only when it is not empty; each image only
      when one was selected. Nothing else is sent. */
  lemma FormPartsContents(title: string, description: string, before: Option<File>, after: Option<File>)
    ensures var f := FormParts(title, description, before, after);
      |f| >= 1 && f[0] == Part("title", Text(title))
      && Lookup(f, "title") == Some(Text(title))
      && Lookup(f, "description") == (if description != "" then Some(Text(description)) else None)
      && Lookup(f, "before_image") == (if before.Some? then Some(Blob(before.value)) else None)
      && Lookup(f, "after_image") == (if after.Some? then Some(Blob(after.value)) else None)
      && forall i :: 0 <= i < |f| ==> f[i].key in {"title", "description", "before_image", "after_image"}
  {
    KeysDiffer();
    var t := [Part("title", Text(title))];
    var d := DescriptionPart(description);
    var b := ImagePart("before_image", before);
    var a := ImagePart("after_image", after);
    PieceLookups(title, description, before, after);
    FormPartsLookup(t, d, b, a, "description");
    FormPartsLookup(t, d, b, a, "before_image");
    FormPartsLookup(t, d, b, a, "after_image");
  }

  lemma PieceLookups(title: string, description: string, before: Option<File>, after: Option<File>)
    ensures Lookup([Part("title", Text(title))], "description") == None
    ensures Lookup([Part("title", Text(title))], "before_image") == None
    ensures Lookup([Part("title", Text(title))], "after_image") == None
    ensures Lookup(DescriptionPart(description), "description") == (if description != "" then Some(Text(description)) else None)
    ensures Lookup(DescriptionPart(description), "before_image") == None
    ensures Lookup(DescriptionPart(description), "after_image") == None
    ensures Lookup(ImagePart("before_image", before), "before_image") == (if before.Some? then Some(Blob(before.value)) else None)
    ensures Lookup(ImagePart("before_image", before), "after_image") == None
    ensures Lookup(ImagePart("after_image", after), "after_image") == (if after.Some? then Some(Blob(after.value)) else None)
  {
    KeysDiffer();
    LookupSingle(Part("title", Text(title)));
    if description != "" {
      LookupSingle(Part("description", Text(description)));
    }
    if before.Some? {
      LookupSingle(Part("before_image", Blob(before.value)));
    }
    if after.Some? {
      LookupSingle(Part("after_image", Blob(after.value)));
    }
  }

  lemma LookupSingle(p: Part)
    ensures forall key :: Lookup([p], key) == if p.key == key then Some(p.value) else None
  {
    assert [p][1..] == [];
  }

  lemma FormPartsLookup(t: seq<Part>, d: seq<Part>, b: seq<Part>, a: seq<Part>, key: string)
    ensures Lookup(t + (d + (b + a)), key) ==
      if Lookup(t, key).Some? then Lookup(t, key)
      else if Lookup(d, key).Some? then Lookup(d, key)
      else if Lookup(b, key).Some? then Lookup(b, key)
      else Lookup(a, key)
  {
    LookupConcat(t, d + (b + a), key);
    LookupConcat(d, b + a, key);
    LookupConcat(b, a, key);
  }

  lemma KeysDiffer()
    ensures "title" != "description" && "title" != "before_image" && "title" != "after_image"
    ensures "description" != "before_image" && "description" != "after_image"
    ensures "before_image" != "after_image"
  {
    assert "before_image"[0] != "after_image"[0];
    assert "title"[0] != "description"[0];
  }

  /** A lookup in a concatenation finds the first part's entry, or else the second's. */
  lemma {:induction false} LookupConcat(p: seq<Part>, q: seq<Part>, key: string)
    ensures Lookup(p + q, key) == if Lookup(p, key).Some? then Lookup(p, key) else Lookup(q, key)
  {
    if p == [] {
      assert p + q == q;
    } else {
      assert (p + q)[1..] == p[1..] + q;
      LookupConcat(p[1..], q, key);
    }
  }

  const RequiredText := "Por favor completa todos los campos requeridos"
  const FailureToast := "Error al procesar la solicitud"
  const DeleteFailureToast := "Error al eliminar"

  /** The submit guard: a title is always needed, and both images when creating. */
  predicate SubmitGate(title: string, editingId: Option<int>, before: Option<File>, after: Option<File>) {
    title != "" && (Truthy(editingId) || (before.Some? && after.Some?))
  }

  /** An edit needs only the title; a create also needs both images; an id of 0 counts as a
      create. */
  lemma SubmitGateCases(title: string, editingId: Option<int>, before: Option<File>, after: Option<File>)
    ensures title == "" ==> !SubmitGate(title, editingId, before, after)
    ensures Truthy(editingId) ==> (SubmitGate(title, editingId, before, after) <==> title != "")
    ensures !Truthy(editingId) ==>
              (SubmitGate(title, editingId, before, after) <==> title != "" && before.Some? && after.Some?)
    ensures !SubmitGate("t", Some(0), None, None)
  {
  }

  /** The HTTP methods the page uses. */
  datatype Verb = POST | PUT | DELETE

  datatype Request = Request(verb: Verb, url: string, form: seq<Part>)

  /** The requests sent, the toast shown (if any), and whether the list is reloaded. */
  datatype Outcome = Outcome(sent: seq<Request>, toast: Option<Toast>, reload: bool)

  /** Where the form goes: PUT to the image's URL when editing a truthy id, else POST to the
      collection. */
  function SubmitRequest(env: Option<string>, editingId: Option<int>, form: seq<Part>): (r: Request)
    ensures r.form == form
    ensures Truthy(editingId) ==> r.verb == PUT && r.url == List(env) + "/" + Decimal.IntToDecimal(editingId.value)
    ensures !Truthy(editingId) ==> r.verb == POST && r.url == List(env)
  {
    EndpointsAgree(env, if editingId.Some? then editingId.value else 0);
    if Truthy(editingId) then Request(PUT, Update(env, editingId.value), form)
    else Request(POST, Create(env), form)
  }

  /** `${NEXT_PUBLIC_API_BASE_URL}/storage/${path}` unless the path is already absolute. */
  function ImageUrl(base: string, path: string): (r: string)
    ensures StartsWith(path, "http") ==> r == path
    ensures !StartsWith(path, "http") ==> r == base + "/storage/" + path
  {
    if StartsWith(path, "http") then path else base + "/storage/" + path
  }

  /** When the base is itself an http URL, a resolved URL resolves to itself, and every
      resolved URL ends with the stored path. */
  lemma ImageUrlFixed(base: string, path: string)
    requires StartsWith(base, "http")
    ensures ImageUrl(base, ImageUrl(base, path)) == ImageUrl(base, path)
    ensures var r := ImageUrl(base, path); |path| <= |r| && r[|r| - |path|..] == path
  {
    var r := ImageUrl(base, path);
    if !StartsWith(path, "http") {
      assert r[..4] == base[..4];
      assert r[|r| - |path|..] == path;
    }
  }

  /** This page interpolates the variable as set, without the trailing-slash strip the
      endpoints apply: a base set with a trailing '/' resolves to a different URL here than
      through the stripped base. */
  lemma PageBaseNotStripped(base: string, path: string)
    requires base == [] || base[|base| - 1] != '/'
    requires !StartsWith(path, "http")
    ensures ImageUrl(Interpolate(Some(base + "/")), path) != ImageUrl(Interpolate(ApiBaseUrl(Some(base + "/"))), path)
  {
    TrailingSlashesIgnored(base, 1);
    assert base + seq(1, _ => '/') == base + "/";
    assert |ImageUrl(Interpolate(Some(base + "/")), path)| == |base| + 1 + 9 + |path|;
  }

  class Page {
    const env: Option<string>
    var isUploading: bool
    var showForm: bool
    var editingId: Option<int>
    var title: string
    var description: string
    var beforeImage: Option<File>
    var afterImage: Option<File>

    /** No upload is in flight. */
    ghost predicate Valid()
      reads this
    {
      !isUploading
    }

    constructor(env: Option<string>)
      ensures Valid() && this.env == env && !showForm && editingId == None
      ensures title == "" && description == "" && beforeImage == None && afterImage == None
    {
      this.env := env;
      isUploading := false;
      showForm := false;
      editingId := None;
      title := "";
      description := "";
      beforeImage := None;
      afterImage := None;
    }

    /** The header button shows or hides the form; the form keeps what was typed. */
    method ToggleForm()
      modifies this
      ensures showForm == !old(showForm)
      ensures isUploading == old(isUploading) && editingId == old(editingId)
      ensures title == old(title) && description == old(description)
      ensures beforeImage == old(beforeImage) && afterImage == old(afterImage)
    {
      showForm := !showForm;
    }

    /** "Cancelar", and the end of a successful submit. */
    method ResetForm()
      modifies this
      ensures title == "" && description == "" && beforeImage == None && afterImage == None
      ensures editingId == None && !showForm
      ensures isUploading == old(isUploading)
    {
      title := "";
      description := "";
      beforeImage := None;
      afterImage := None;
      editingId := None;
      showForm := false;
    }

    /** "Editar" on a card: the form opens on the image's texts; files chosen earlier stay. */
    method HandleEdit(image: ClinicalImage)
      modifies this
      ensures editingId == Some(image.id) && title == image.title && showForm
      ensures description == image.description.GetOr("")
      ensures beforeImage == old(beforeImage) && afterImage == old(afterImage)
      ensures isUploading == old(isUploading)
    {
      editingId := Some(image.id);
      title := image.title;
      description := image.description.GetOr("");
      showForm := true;
    }

    /** Submitting the form, given the response. A failed request of any kind shows the same
        toast and keeps the form. */
    method HandleSubmit(res: Response) returns (o: Outcome)
      requires Valid()
      modifies this
      ensures Valid()
      ensures !SubmitGate(old(title), old(editingId), old(beforeImage), old(afterImage)) ==>
                o == Outcome([], Some(ToastError(RequiredText)), false)
      ensures SubmitGate(old(title), old(editingId), old(beforeImage), old(afterImage)) ==>
                o.sent == [SubmitRequest(env, old(editingId),
                                         FormParts(old(title), old(description), old(beforeImage), old(afterImage)))]
                && (res.Ok? ==> o.reload && o.toast == Some(ToastSuccess(if Truthy(old(editingId)) then "Imagen actualizada" else "Imagen creada")))
                && (!res.Ok? ==> !o.reload && o.toast == Some(ToastError(FailureToast)))
      ensures o.reload ==> title == "" && description == "" && beforeImage == None && afterImage == None
                           && editingId == None && !showForm
      ensures !o.reload ==> title == old(title) && description == old(description)
                            && beforeImage == old(beforeImage) && afterImage == old(afterImage)
                            && editingId == old(editingId) && showForm == old(showForm)
    {
      if !SubmitGate(title, editingId, beforeImage, afterImage) {
        o := Outcome([], Some(ToastError(RequiredText)), false);
        return;
      }
      isUploading := true;
      var form := FormParts(title, description, beforeImage, afterImage);
      var sent := [SubmitRequest(env, editingId, form)];
      if !res.Ok? {
        o := Outcome(sent, Some(ToastError(FailureToast)), false);
      } else {
        var text := if Truthy(editingId) then "Imagen actualizada" else "Imagen creada";
        ResetForm();
        o := Outcome(sent, Some(ToastSuccess(text)), true);
      }
      isUploading := false;
    }

    /** "Eliminar" on a card: nothing is sent unless the confirmation is accepted. */
    method HandleDelete(id: int, confirmed: bool, res: Response) returns (o: Outcome)
      ensures !confirmed ==> o == Outcome([], None, false)
      ensures confirmed ==> o.sent == [Request(DELETE, Delete(env, id), [])]
      ensures confirmed && res.Ok? ==> o.toast == Some(ToastSuccess("Imagen eliminada")) && o.reload
      ensures confirmed && !res.Ok? ==> o.toast == Some(ToastError(DeleteFailureToast)) && !o.reload
    {
      if !confirmed {
        o := Outcome([], None, false);
        return;
      }
      var sent := [Request(DELETE, Delete(env, id), [])];
      if res.Ok? {
        o := Outcome(sent, Some(ToastSuccess("Imagen eliminada")), true);
      } else {
        o := Outcome(sent, Some(ToastError(DeleteFailureToast)), false);
      }
    }
  }
}
