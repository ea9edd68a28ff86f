/** The request body the handlers build with `new FormData()` and
    `formData.append(key, value)`: an ordered list of key/part pairs.
    The byte-level multipart encoding is done by the browser and is not
    modelled; only the order, the keys and the parts are. */
module Multipart {

  /** A file picked in the browser, opaque to the handlers. */
  datatype File = File(name: string, bytes: seq<bv8>)

  /** The value of one appended field: a file or a plain string. */
  datatype Part = FilePart(file: File) | TextPart(text: string)

  /** One `formData.append(key, part)` call. */
  datatype Field = Field(key: string, part: Part)

  type Payload = seq<Field>

  /** The keys of `p`, in append order. */
  function Keys(p: Payload): seq<string> {
    if p == [] then [] else [p[0].key] + Keys(p[1..])
  }

  /** The files appended under `key`, in append order
      (what a server reads with `getAll(key)` for file fields). */
  function FilesUnder(p: Payload, key: string): seq<File> {
    if p == [] then []
    else
      (if p[0].key == key && p[0].part.FilePart? then [p[0].part.file] else [])
      + FilesUnder(p[1..], key)
  }

  /** The strings appended under `key`, in append order. */
  function TextsUnder(p: Payload, key: string): seq<string> {
    if p == [] then []
    else
      (if p[0].key == key && p[0].part.TextPart? then [p[0].part.text] else [])
      + TextsUnder(p[1..], key)
  }

  /** `n` copies of `key`. */
  function Repeat(key: string, n: nat): (r: seq<string>)
    ensures |r| == n
    ensures forall i :: 0 <= i < n ==> r[i] == key
  {
    if n == 0 then [] else [key] + Repeat(key, n - 1)
  }

  /** `files.forEach(f => formData.append(key, f))`: one file part per
      file, all under `key`, in the order of `files`. */
  function FileFields(key: string, files: seq<File>): (p: Payload)
    ensures |p| == |files|
    ensures forall i :: 0 <= i < |files| ==> p[i] == Field(key, FilePart(files[i]))
  {
    if files == [] then [] else [Field(key, FilePart(files[0]))] + FileFields(key, files[1..])
  }

  /** `formData.append(key, text)` for a string value. */
  function TextField(key: string, text: string): Field {
    Field(key, TextPart(text))
  }

  lemma {:induction false} KeysAppend(p: Payload, q: Payload)
    ensures Keys(p + q) == Keys(p) + Keys(q)
  {
    if p != [] {
      assert (p + q)[1..] == p[1..] + q;
      KeysAppend(p[1..], q);
    } else {
      assert p + q == q;
    }
  }

  lemma {:induction false} FilesUnderAppend(p: Payload, q: Payload, key: string)
    ensures FilesUnder(p + q, key) == FilesUnder(p, key) + FilesUnder(q, key)
  {
    if p != [] {
      assert (p + q)[1..] == p[1..] + q;
      FilesUnderAppend(p[1..], q, key);
    } else {
      assert p + q == q;
    }
  }

  lemma {:induction false} TextsUnderAppend(p: Payload, q: Payload, key: string)
    ensures TextsUnder(p + q, key) == TextsUnder(p, key) + TextsUnder(q, key)
  {
    if p != [] {
      assert (p + q)[1..] == p[1..] + q;
      TextsUnderAppend(p[1..], q, key);
    } else {
      assert p + q == q;
    }
  }

  /** Reading back a concatenation reads back each half, in order. */
  lemma ReadBackAppend(p: Payload, q: Payload)
    ensures Keys(p + q) == Keys(p) + Keys(q)
    ensures forall k :: FilesUnder(p + q, k) == FilesUnder(p, k) + FilesUnder(q, k)
    ensures forall k :: TextsUnder(p + q, k) == TextsUnder(p, k) + TextsUnder(q, k)
  {
    KeysAppend(p, q);
    forall k
      ensures FilesUnder(p + q, k) == FilesUnder(p, k) + FilesUnder(q, k)
      ensures TextsUnder(p + q, k) == TextsUnder(p, k) + TextsUnder(q, k)
    {
      FilesUnderAppend(p, q, k);
      TextsUnderAppend(p, q, k);
    }
  }

  /** Reading back a `forEach` append: the files come back under their key
      in the order given, nothing appears under any other key, and no
      string part is added. */
  lemma {:induction false} FileFieldsRoundTrip(key: string, files: seq<File>)
    ensures Keys(FileFields(key, files)) == Repeat(key, |files|)
    ensures FilesUnder(FileFields(key, files), key) == files
    ensures forall k :: k != key ==> FilesUnder(FileFields(key, files), k) == []
    ensures forall k :: TextsUnder(FileFields(key, files), k) == []
  {
    if files != [] {
      var p := FileFields(key, files);
      assert p[1..] == FileFields(key, files[1..]);
      FileFieldsRoundTrip(key, files[1..]);
      assert files == [files[0]] + files[1..];
    }
  }

  /** A `forEach` append under `key` leaves nothing under another key `k`. */
  lemma {:induction false} FileFieldsOtherKey(key: string, files: seq<File>, k: string)
    requires k != key
    ensures FilesUnder(FileFields(key, files), k) == []
    ensures TextsUnder(FileFields(key, files), k) == []
  {
    if files != [] {
      assert FileFields(key, files)[1..] == FileFields(key, files[1..]);
      FileFieldsOtherKey(key, files[1..], k);
    }
  }

  /** What a single appended file reads back as. */
  lemma FileFieldReadBack(key: string, f: File)
    ensures Keys([Field(key, FilePart(f))]) == [key]
    ensures FilesUnder([Field(key, FilePart(f))], key) == [f]
    ensures forall k :: k != key ==> FilesUnder([Field(key, FilePart(f))], k) == []
    ensures forall k :: TextsUnder([Field(key, FilePart(f))], k) == []
  {
    var p := [Field(key, FilePart(f))];
    assert p[1..] == [];
  }

  /** What a single appended string reads back as. */
  lemma TextFieldReadBack(key: string, t: string)
    ensures Keys([TextField(key, t)]) == [key]
    ensures TextsUnder([TextField(key, t)], key) == [t]
    ensures forall k :: k != key ==> TextsUnder([TextField(key, t)], k) == []
    ensures forall k :: FilesUnder([TextField(key, t)], k) == []
  {
    var p := [TextField(key, t)];
    assert p[1..] == [];
  }

  /** Two string fields under distinct keys read back as sent. */
  lemma TextPairReadBack(k1: string, v1: string, k2: string, v2: string)
    requires k1 != k2
    ensures var t := [TextField(k1, v1), TextField(k2, v2)];
      && Keys(t) == [k1, k2]
      && TextsUnder(t, k1) == [v1]
      && TextsUnder(t, k2) == [v2]
      && forall k :: FilesUnder(t, k) == []
  {
    var a := [TextField(k1, v1)];
    var b := [TextField(k2, v2)];
    assert a + b == [TextField(k1, v1), TextField(k2, v2)];
    TextFieldReadBack(k1, v1);
    TextFieldReadBack(k2, v2);
    ReadBackAppend(a, b);
  }
}
