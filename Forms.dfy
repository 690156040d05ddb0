/** Values that travel in a share submission: the multipart form the
    browser hands to the service worker and the File objects in it. */
module Forms {
  import opened Js

  /** A File (Blob) object: its MIME type, its size in bytes and the data URL
      FileReader.readAsDataURL yields for it (`None` when the reader fails).
      The encoder itself is not modelled; its output is part of the value. */
  datatype SharedFile = SharedFile(mimeType: string, size: nat, dataUrl: Option<string>)

  /** A form entry's value: a string or a File. */
  datatype FormValue = TextValue(text: string) | FileValue(file: SharedFile)

  datatype FormEntry = FormEntry(name: string, value: FormValue)

  /** FormData.getAll: the values of every entry called `name`, in form order. */
  function GetAll(form: seq<FormEntry>, name: string): (r: seq<FormValue>)
    ensures |r| <= |form|
    ensures forall v :: v in r ==> FormEntry(name, v) in form
  {
    if form == [] then []
    else (if form[0].name == name then [form[0].value] else []) + GetAll(form[1..], name)
  }

  /** FormData.get: the value of the first entry called `name`, or null. */
  function Get(form: seq<FormEntry>, name: string): (r: Option<FormValue>)
    ensures r.None? <==> forall i :: 0 <= i < |form| ==> form[i].name != name
    ensures r.Some? ==> FormEntry(name, r.value) in form
  {
    if form == [] then None
    else if form[0].name == name then Some(form[0].value)
    else Get(form[1..], name)
  }

  /** get returns the first of the values getAll returns. */
  lemma {:induction false} GetIsFirstOfGetAll(form: seq<FormEntry>, name: string)
    ensures Get(form, name) == if GetAll(form, name) == [] then None else Some(GetAll(form, name)[0])
  {
    if form != [] && form[0].name != name {
      GetIsFirstOfGetAll(form[1..], name);
    }
  }

  /** getAll keeps entry order: the entries of a form split in two come out
      as those of the first part followed by those of the second. */
  lemma {:induction false} GetAllAppend(a: seq<FormEntry>, b: seq<FormEntry>, name: string)
    ensures GetAll(a + b, name) == GetAll(a, name) + GetAll(b, name)
  {
    if a != [] {
      var ab := a + b;
      assert ab[0] == a[0] && ab[1..] == a[1..] + b;
      GetAllAppend(a[1..], b, name);
    } else {
      assert a + b == b;
    }
  }

  /** getAll drops nothing: every entry called `name` contributes its value. */
  lemma {:induction false} GetAllKeepsEvery(form: seq<FormEntry>, name: string, i: nat)
    requires i < |form| && form[i].name == name
    ensures form[i].value in GetAll(form, name)
  {
    if i > 0 {
      GetAllKeepsEvery(form[1..], name, i - 1);
    }
  }
}
