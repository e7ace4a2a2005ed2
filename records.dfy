/**
 * The two kinds of record the managers keep in the store: deadlines and
 * uploaded-file entries, with their JSON form and its decoding.
 */
module Records {
  import opened Wrappers
  import opened Json

  /** A deadline: `{type, date, id}`; `date` is the `YYYY-MM-DD` text of the form field. */
  datatype Deadline = Deadline(kind: string, date: string, id: nat)

  /** An uploaded-file entry: `{id, name, size, type}`. */
  datatype UploadedFile = UploadedFile(id: nat, name: string, size: nat, mime: string)

  /** The names of the uploaded files, in list order. */
  function FileNames(fs: seq<UploadedFile>): (r: seq<string>)
    ensures |r| == |fs| && forall i :: 0 <= i < |fs| ==> r[i] == fs[i].name
  {
    seq(|fs|, i requires 0 <= i < |fs| => fs[i].name)
  }

  function DeadlineToJson(d: Deadline): Json {
    Obj(map["type" := Str(d.kind), "date" := Str(d.date), "id" := Num(d.id)])
  }

  function DeadlineFromJson(j: Json): Option<Deadline> {
    match (Get(j, "type"), Get(j, "date"), Get(j, "id"))
    case (Some(Str(kind)), Some(Str(date)), Some(Num(id))) =>
      if id >= 0 then Some(Deadline(kind, date, id)) else None
    case _ => None
  }

  function FileToJson(f: UploadedFile): Json {
    Obj(map["id" := Num(f.id), "name" := Str(f.name), "size" := Num(f.size), "type" := Str(f.mime)])
  }

  function FileFromJson(j: Json): Option<UploadedFile> {
    match (Get(j, "id"), Get(j, "name"), Get(j, "size"), Get(j, "type"))
    case (Some(Num(id)), Some(Str(name)), Some(Num(size)), Some(Str(mime))) =>
      if id >= 0 && size >= 0 then Some(UploadedFile(id, name, size, mime)) else None
    case _ => None
  }

  lemma DeadlineRoundTrip(d: Deadline)
    ensures DeadlineFromJson(DeadlineToJson(d)) == Some(d)
  {
    var j := DeadlineToJson(d);
    assert Get(j, "type") == Some(Str(d.kind)) && Get(j, "date") == Some(Str(d.date));
    assert Get(j, "id") == Some(Num(d.id));
  }

  lemma FileRoundTrip(f: UploadedFile)
    ensures FileFromJson(FileToJson(f)) == Some(f)
  {
    var j := FileToJson(f);
    assert Get(j, "id") == Some(Num(f.id)) && Get(j, "name") == Some(Str(f.name));
    assert Get(j, "size") == Some(Num(f.size)) && Get(j, "type") == Some(Str(f.mime));
  }

  function EncodeDeadlines(ds: seq<Deadline>): (r: Json)
    ensures r.Arr? && |r.items| == |ds|
    ensures forall i :: 0 <= i < |ds| ==> r.items[i] == DeadlineToJson(ds[i])
  {
    Arr(seq(|ds|, i requires 0 <= i < |ds| => DeadlineToJson(ds[i])))
  }

  function EncodeFiles(fs: seq<UploadedFile>): (r: Json)
    ensures r.Arr? && |r.items| == |fs|
    ensures forall i :: 0 <= i < |fs| ==> r.items[i] == FileToJson(fs[i])
  {
    Arr(seq(|fs|, i requires 0 <= i < |fs| => FileToJson(fs[i])))
  }

  /** Decodes every item of a list; `None` when some item is not a deadline. */
  function DecodeDeadlineItems(items: seq<Json>): (r: Option<seq<Deadline>>)
    ensures r.Some? ==> |r.value| == |items|
  {
    if items == [] then Some([])
    else match (DeadlineFromJson(items[0]), DecodeDeadlineItems(items[1..]))
      case (Some(d), Some(rest)) => Some([d] + rest)
      case _ => None
  }

  function DecodeFileItems(items: seq<Json>): (r: Option<seq<UploadedFile>>)
    ensures r.Some? ==> |r.value| == |items|
  {
    if items == [] then Some([])
    else match (FileFromJson(items[0]), DecodeFileItems(items[1..]))
      case (Some(f), Some(rest)) => Some([f] + rest)
      case _ => None
  }

  function DecodeDeadlines(j: Json): Option<seq<Deadline>> {
    if j.Arr? then DecodeDeadlineItems(j.items) else None
  }

  function DecodeFiles(j: Json): Option<seq<UploadedFile>> {
    if j.Arr? then DecodeFileItems(j.items) else None
  }

  /** What `saveDeadlines` stores decodes back to the same list. */
  lemma {:induction false} DeadlinesRoundTrip(ds: seq<Deadline>)
    ensures DecodeDeadlines(EncodeDeadlines(ds)) == Some(ds)
  {
    if ds != [] {
      var items := EncodeDeadlines(ds).items;
      DeadlineRoundTrip(ds[0]);
      DeadlinesRoundTrip(ds[1..]);
      assert items[1..] == EncodeDeadlines(ds[1..]).items;
      assert ds == [ds[0]] + ds[1..];
    }
  }

  /** What `saveUploadedFiles` stores decodes back to the same list. */
  lemma {:induction false} FilesRoundTrip(fs: seq<UploadedFile>)
    ensures DecodeFiles(EncodeFiles(fs)) == Some(fs)
  {
    if fs != [] {
      var items := EncodeFiles(fs).items;
      FileRoundTrip(fs[0]);
      FilesRoundTrip(fs[1..]);
      assert items[1..] == EncodeFiles(fs[1..]).items;
      assert fs == [fs[0]] + fs[1..];
    }
  }
}
