/**
 * Document uploads: the size and type gate a file passes before it is
 * admitted, the uploaded-file list and its removal, the checklist of
 * documents the chosen visa route requires and the `completed/total`
 * progress shown on the dashboard.  Reading a file's contents (the
 * asynchronous `FileReader`) is not modelled: `AddFile` is the completion of
 * that read, applied in the order the files were handed over.
 */
module Documents {
  import opened Wrappers
  import opened Strings
  import opened Json
  import opened Seqs
  import opened Records
  import opened Matching
  import Catalog
  import Storage

  /** 20 MiB, in bytes. */
  const MaxFileSize: nat := 20 * 1024 * 1024
  const AllowedTypes: seq<string> := ["application/pdf", "image/jpeg", "image/jpg", "image/png"]

  /** A file chosen or dropped by the user: its name, size in bytes and MIME type. */
  datatype FileInfo = FileInfo(name: string, size: nat, mime: string)

  /** The outcome of `validateFile`: accepted, or the check that refused the file. */
  datatype Verdict = Accepted | TooLarge | UnsupportedType

  /** `validateFile(file)`: the size check runs first, then the type check. */
  function Validate(f: FileInfo): (v: Verdict)
    ensures v.TooLarge? <==> f.size > MaxFileSize
    ensures v.UnsupportedType? <==> f.size <= MaxFileSize && f.mime !in AllowedTypes
    ensures v.Accepted? <==> f.size <= MaxFileSize && f.mime in AllowedTypes
  {
    if f.size > MaxFileSize then TooLarge
    else if f.mime !in AllowedTypes then UnsupportedType
    else Accepted
  }

  predicate IsAccepted(f: FileInfo) {
    Validate(f).Accepted?
  }

  /** A file is admitted exactly when it is at most 20 MiB (20 MiB itself
      included) and a PDF, JPEG or PNG; an oversized file is refused for its
      size whatever its type. */
  lemma AcceptedIff(f: FileInfo)
    ensures IsAccepted(f) <==>
      (f.size <= 20971520
       && (f.mime == "application/pdf" || f.mime == "image/jpeg" || f.mime == "image/jpg" || f.mime == "image/png"))
    ensures f.size > 20971520 ==> Validate(f) == TooLarge
  {
  }

  /** The entry `addFile` pushes for a file, with the id token `id`. */
  function NewEntry(f: FileInfo, id: nat): UploadedFile {
    UploadedFile(id, f.name, f.size, f.mime)
  }

  /** The entries for the given files, with ids `next`, `next + 1`, ... */
  function EntriesFrom(fs: seq<FileInfo>, next: nat): seq<UploadedFile> {
    seq(|fs|, i requires 0 <= i < |fs| => NewEntry(fs[i], next + i))
  }

  /** What `handleFiles` adds to the list: one entry per accepted file, in order. */
  function Admitted(files: seq<FileInfo>, next: nat): seq<UploadedFile> {
    EntriesFrom(Filter(files, IsAccepted), next)
  }

  /** Every admitted entry carries the name, size and type of an accepted file. */
  lemma AdmittedFromAccepted(files: seq<FileInfo>, next: nat)
    ensures var r := Admitted(files, next);
      && |r| <= |files|
      && forall i :: 0 <= i < |r| ==>
           exists f :: 0 <= f < |files| && IsAccepted(files[f]) && r[i] == NewEntry(files[f], next + i)
  {
    var kept := Filter(files, IsAccepted);
    var r := Admitted(files, next);
    assert |r| == |kept|;
    forall i | 0 <= i < |r|
      ensures exists f :: 0 <= f < |files| && IsAccepted(files[f]) && r[i] == NewEntry(files[f], next + i)
    {
      assert kept[i] in multiset(files);
      var f :| 0 <= f < |files| && files[f] == kept[i];
      assert IsAccepted(kept[i]);
      assert r[i] == NewEntry(kept[i], next + i);
    }
  }

  /** Every accepted file is admitted, after the accepted files in front of it. */
  lemma AcceptedAdmitted(files: seq<FileInfo>, next: nat, f: nat)
    requires f < |files| && IsAccepted(files[f])
    ensures var slot := |Filter(files[..f], IsAccepted)|;
      slot < |Admitted(files, next)| && Admitted(files, next)[slot] == NewEntry(files[f], next + slot)
  {
    FilterPosition(files, IsAccepted, f);
  }

  /** A batch with no acceptable file admits nothing. */
  lemma RejectedAdmitNothing(files: seq<FileInfo>, next: nat)
    requires forall i :: 0 <= i < |files| ==> !IsAccepted(files[i])
    ensures Admitted(files, next) == []
  {
    FilterDropsAll(files, IsAccepted);
  }

  /** One more file handled: its entry is appended when it is accepted. */
  lemma AdmittedSnoc(files: seq<FileInfo>, f: FileInfo, next: nat)
    ensures Admitted(files + [f], next)
         == Admitted(files, next) + (if IsAccepted(f) then [NewEntry(f, next + |Admitted(files, next)|)] else [])
  {
    FilterConcat(files, [f], IsAccepted);
    assert [f][1..] == [];
    var a, b := Filter(files, IsAccepted), Filter([f], IsAccepted);
    assert b == if IsAccepted(f) then [f] else [];
    EntriesConcat(a, b, next);
    assert EntriesFrom(b, next + |a|) == if IsAccepted(f) then [NewEntry(f, next + |a|)] else [];
  }

  /** Entries for two runs of files are the entries of the first run followed
      by those of the second, numbered on. */
  lemma EntriesConcat(a: seq<FileInfo>, b: seq<FileInfo>, next: nat)
    ensures EntriesFrom(a + b, next) == EntriesFrom(a, next) + EntriesFrom(b, next + |a|)
  {
    var l, r := EntriesFrom(a + b, next), EntriesFrom(a, next) + EntriesFrom(b, next + |a|);
    assert |l| == |r|;
    forall i | 0 <= i < |l|
      ensures l[i] == r[i]
    {
      if i >= |a| {
        assert (a + b)[i] == b[i - |a|];
      }
    }
  }

  lemma AdmittedStep(files: seq<FileInfo>, i: nat, next: nat)
    requires i < |files|
    ensures var before := Admitted(files[..i], next);
      Admitted(files[..i + 1], next)
      == before + (if IsAccepted(files[i]) then [NewEntry(files[i], next + |before|)] else [])
  {
    assert files[..i + 1] == files[..i] + [files[i]];
    AdmittedSnoc(files[..i], files[i], next);
  }

  /** How the upload was reached: a click on the drop zone, a drop on it, or
      Enter or Space while it has focus. */
  datatype Trigger = Click | Drop | Keyboard

  /** What the drop zone's handlers see of the consent manager: its
      `featuresEnabled` flag and the `disabled` attribute of `#fileInput`. */
  datatype UploadGate = UploadGate(featuresEnabled: bool, inputDisabled: bool)

  /** A consent decision taken on the page. */
  datatype Decision = Accept | Reject

  /** The gate after start-up: a stored acceptance runs `enableFeatures()`;
      without one the flag stays off and the input keeps the `disabled`
      attribute the page markup gives it (`markupDisabled`). */
  function StartGate(hasConsent: bool, markupDisabled: bool): UploadGate {
    if hasConsent then UploadGate(true, false) else UploadGate(false, markupDisabled)
  }

  /** `enableFeatures()` after an acceptance, `disableFeatures()` after a refusal. */
  function Decide(d: Decision): UploadGate {
    match d
    case Accept => UploadGate(true, false)
    case Reject => UploadGate(false, true)
  }

  /** The gate after the decisions taken since the page loaded, oldest first. */
  function GateAfter(hasConsent: bool, markupDisabled: bool, ds: seq<Decision>): UploadGate {
    if |ds| == 0 then StartGate(hasConsent, markupDisabled) else Decide(ds[|ds| - 1])
  }

  /** Whether a trigger reaches `handleFiles` as the handlers are written: a
      click checks the flag and then needs an enabled input for
      `fileInput.click()`, a drop checks only the flag, and a key checks
      nothing and needs only an enabled input. */
  predicate ReachesUploadAsWritten(g: UploadGate, t: Trigger) {
    match t
    case Click => g.featuresEnabled && !g.inputDisabled
    case Drop => g.featuresEnabled
    case Keyboard => !g.inputDisabled
  }

  /** Whether a trigger reaches `handleFiles` when every path checks the flag,
      as the click and drop paths do. */
  predicate ReachesUpload(g: UploadGate, t: Trigger) {
    g.featuresEnabled && ReachesUploadAsWritten(g, t)
  }

  /** The flag is on exactly when the latest decision accepted (or, with no
      decision yet, when an acceptance was stored); the input is disabled
      exactly when the latest decision refused (or, with none, when the
      markup disables it and no acceptance was stored). */
  lemma GateAfterDecisions(hasConsent: bool, markupDisabled: bool, ds: seq<Decision>)
    ensures GateAfter(hasConsent, markupDisabled, ds).featuresEnabled
            == if |ds| == 0 then hasConsent else ds[|ds| - 1] == Accept
    ensures GateAfter(hasConsent, markupDisabled, ds).inputDisabled
            == if |ds| == 0 then !hasConsent && markupDisabled else ds[|ds| - 1] == Reject
    ensures GateAfter(hasConsent, markupDisabled, ds).featuresEnabled
            ==> !GateAfter(hasConsent, markupDisabled, ds).inputDisabled
  {
  }

  /** As written, the keyboard reaches the upload without consent exactly on
      a page where no acceptance is stored, no decision has been taken since
      it loaded, and the markup leaves `#fileInput` enabled; a refusal on the
      page closes that path. The click and the drop never reach it without
      consent. */
  lemma KeyboardSkipsConsent(hasConsent: bool, markupDisabled: bool, ds: seq<Decision>)
    ensures var g := GateAfter(hasConsent, markupDisabled, ds);
      (ReachesUploadAsWritten(g, Keyboard) && !g.featuresEnabled)
      <==> (|ds| == 0 && !hasConsent && !markupDisabled)
    ensures var g := GateAfter(hasConsent, markupDisabled, ds);
      !g.featuresEnabled ==> !ReachesUploadAsWritten(g, Click) && !ReachesUploadAsWritten(g, Drop)
  {
    GateAfterDecisions(hasConsent, markupDisabled, ds);
  }

  /** With the flag checked on every path, each trigger reaches the upload
      exactly when consent is in force, whatever the markup and the
      decisions; this is the gate of `DocumentManager.Upload`. */
  lemma GatedUploadIsConsent(hasConsent: bool, markupDisabled: bool, ds: seq<Decision>, t: Trigger)
    ensures ReachesUpload(GateAfter(hasConsent, markupDisabled, ds), t)
            <==> GateAfter(hasConsent, markupDisabled, ds).featuresEnabled
  {
    GateAfterDecisions(hasConsent, markupDisabled, ds);
  }

  /** `f.id !== fileId` as written: a stored id is a number, and the delete
      button passes it as a text, so the two are never strictly equal. */
  function KeepAsWritten(fileId: Json): UploadedFile -> bool {
    (f: UploadedFile) => Num(f.id) != fileId
  }

  /** `removeFile(fileId)` as written. */
  function RemoveAsWritten(files: seq<UploadedFile>, fileId: Json): seq<UploadedFile> {
    Filter(files, KeepAsWritten(fileId))
  }

  /** The id text on the delete button of entry `k` removes nothing. */
  lemma ButtonRemovesNothing(files: seq<UploadedFile>, k: nat)
    requires k < |files|
    ensures RemoveAsWritten(files, Str(NatToString(files[k].id))) == files
  {
    FilterKeepsAll(files, KeepAsWritten(Str(NatToString(files[k].id))));
  }

  /** The comparison as intended: the entry's id text against the button's. */
  function KeepOthers(fileId: string): UploadedFile -> bool {
    (f: UploadedFile) => NatToString(f.id) != fileId
  }

  /** `removeFile(fileId)` with the comparison made on the id text. */
  function RemoveById(files: seq<UploadedFile>, fileId: string): (r: seq<UploadedFile>)
    ensures forall i :: 0 <= i < |r| ==> NatToString(r[i].id) != fileId
    ensures multiset(r) <= multiset(files)
  {
    Filter(files, KeepOthers(fileId))
  }

  /** The delete button of entry `k` removes every entry with that id and keeps
      every other entry, as often as it occurs. */
  lemma ButtonRemovesEntry(files: seq<UploadedFile>, k: nat)
    requires k < |files|
    ensures var r := RemoveById(files, NatToString(files[k].id));
      && (forall i :: 0 <= i < |r| ==> r[i].id != files[k].id)
      && (forall x: UploadedFile :: x.id != files[k].id ==> multiset(r)[x] == multiset(files)[x])
      && |r| < |files|
  {
    var t := NatToString(files[k].id);
    var r := RemoveById(files, t);
    forall x: UploadedFile | x.id != files[k].id ensures multiset(r)[x] == multiset(files)[x] {
      if NatToString(x.id) == t {
        NatToStringInjective(x.id, files[k].id);
      }
      FilterKeepsMatches(files, KeepOthers(t), x);
    }
    FilterAllIff(files, KeepOthers(t));
    assert !KeepOthers(t)(files[k]);
  }

  /** `getFileTypeLabel(fileType)`. */
  function FileTypeLabel(mime: string): (r: string)
    ensures r == "PDF" <==> mime == "application/pdf"
    ensures r == "JPG" <==> mime == "image/jpeg" || mime == "image/jpg"
    ensures r == "PNG" <==> mime == "image/png"
    ensures r == "File" <==> mime !in AllowedTypes
  {
    if mime == "application/pdf" then "PDF"
    else if mime == "image/jpeg" || mime == "image/jpg" then "JPG"
    else if mime == "image/png" then "PNG"
    else "File"
  }

  /** Every admitted file gets a specific label. */
  lemma AcceptedLabelled(f: FileInfo)
    requires IsAccepted(f)
    ensures FileTypeLabel(f.mime) in ["PDF", "JPG", "PNG"]
  {
  }

  /** `formatFileSize(bytes)`; `fixed(bytes, unit)` is `(bytes / unit).toFixed(1)`. */
  function FormatFileSize(bytes: nat, fixed: (nat, nat) -> string): (r: string)
    ensures |r| >= 2
  {
    if bytes < 1024 then NatToString(bytes) + " B"
    else if bytes < 1024 * 1024 then fixed(bytes, 1024) + " KB"
    else fixed(bytes, 1024 * 1024) + " MB"
  }

  /** The unit follows the magnitude, and below 1 KiB the shown number is the byte count. */
  lemma FileSizeUnits(bytes: nat, fixed: (nat, nat) -> string)
    ensures var r := FormatFileSize(bytes, fixed);
      && (r[|r| - 2..] == " B" <==> bytes < 1024)
      && (r[|r| - 2..] == "KB" <==> 1024 <= bytes < 1048576)
      && (r[|r| - 2..] == "MB" <==> bytes >= 1048576)
      && (bytes < 1024 ==> AllDigits(r[..|r| - 2]) && DigitsValue(r[..|r| - 2]) == bytes)
  {
    var r := FormatFileSize(bytes, fixed);
    if bytes < 1024 {
      assert r[|r| - 2..] == " B";
      assert r[..|r| - 2] == NatToString(bytes);
      NatToStringRoundTrip(bytes);
    } else if bytes < 1048576 {
      assert r[|r| - 2..] == "KB";
    } else {
      assert r[|r| - 2..] == "MB";
    }
  }

  /** `saveRequiredDocs`: `loadClientData() || {}` with `requiredDocs` set.  A
      property set on a truthy value that is not an object does not survive
      the store's JSON copy. */
  function WithRequiredDocs(clientData: Json, docs: seq<string>): (r: Json)
    ensures clientData.Obj? || clientData.Null? ==> Get(r, "requiredDocs") == Some(StrList(docs))
    ensures clientData.Obj? ==> forall k :: k != "requiredDocs" ==> Get(r, k) == Get(clientData, k)
  {
    match clientData
    case Null => Obj(map["requiredDocs" := StrList(docs)])
    case Obj(fields) => Obj(fields["requiredDocs" := StrList(docs)])
    case _ => clientData
  }

  /** What `loadRequiredDocs` finds: the stored client data's `requiredDocs`
      when it is there and a list of texts. */
  function StoredRequiredDocs(m: Storage.Memory): Option<seq<string>> {
    var clientData := Storage.LoadFrom(m, Storage.ClientDataKey);
    match Get(clientData, "requiredDocs")
    case Some(Arr(items)) => StrItems(items)
    case _ => None
  }

  /** What `saveRequiredDocs` stores, `loadRequiredDocs` reads back. */
  lemma RequiredDocsRoundTrip(m: Storage.Memory, docs: seq<string>)
    requires Storage.LoadFrom(m, Storage.ClientDataKey).Null? || Storage.LoadFrom(m, Storage.ClientDataKey).Obj?
    ensures StoredRequiredDocs(m[Storage.ClientDataKey := WithRequiredDocs(Storage.LoadFrom(m, Storage.ClientDataKey), docs)])
         == Some(docs)
  {
    var v := WithRequiredDocs(Storage.LoadFrom(m, Storage.ClientDataKey), docs);
    assert v.Obj?;
    Storage.SaveThenLoad(m, Storage.ClientDataKey, v, Storage.ClientDataKey);
    StrListRoundTrip(docs);
  }

  /** The test `isDocumentUploaded` applies to one label. */
  function Satisfied(names: seq<string>): string -> bool {
    (doc: string) => IsDocumentUploaded(doc, names)
  }

  datatype ProgressColour = SuccessColour | PrimaryColour

  /** The `docsProgress` widget: its text and its colour. */
  datatype Progress = Progress(completed: nat, total: nat, text: string, colour: ProgressColour)

  /** `updateDashboard()`: how many required documents are satisfied by the uploads. */
  function DocsProgress(docs: seq<string>, names: seq<string>): (p: Progress)
    ensures p.completed <= p.total && p.total == |docs|
    ensures p.text == NatToString(p.completed) + "/" + NatToString(p.total)
    ensures p.colour == SuccessColour <==> p.completed == p.total && p.total > 0
  {
    var completed := |Filter(docs, Satisfied(names))|;
    var total := |docs|;
    Progress(completed, total, NatToString(completed) + "/" + NatToString(total),
             if completed == total && total > 0 then SuccessColour else PrimaryColour)
  }

  /** The progress turns green exactly when there are required documents and
      every one of them is satisfied. */
  lemma ProgressComplete(docs: seq<string>, names: seq<string>)
    ensures DocsProgress(docs, names).colour == SuccessColour
        <==> docs != [] && forall i :: 0 <= i < |docs| ==> IsDocumentUploaded(docs[i], names)
  {
    FilterAllIff(docs, Satisfied(names));
  }

  /** Uploading more files never lowers the completed count. */
  lemma ProgressMonotone(docs: seq<string>, names: seq<string>, more: seq<string>)
    ensures DocsProgress(docs, names).completed <= DocsProgress(docs, names + more).completed
  {
    forall i | 0 <= i < |docs| && Satisfied(names)(docs[i])
      ensures Satisfied(names + more)(docs[i])
    {
      UploadedMonotone(docs[i], names, more);
    }
    FilterWeaker(docs, Satisfied(names), Satisfied(names + more));
  }

  /** `loadUploadedFiles()` read through the record decoder: the stored list, or
      none when what is stored does not decode. */
  function StoredFiles(m: Storage.Memory): seq<UploadedFile> {
    match DecodeFiles(Storage.ListIn(m, Storage.UploadedFilesKey))
    case Some(fs) => fs
    case None => []
  }

  /** What `saveUploadedFiles` stores, `loadUploadedFiles` reads back; an empty store reads as no files. */
  lemma StoredFilesRoundTrip(m: Storage.Memory, fs: seq<UploadedFile>)
    ensures StoredFiles(m[Storage.UploadedFilesKey := EncodeFiles(fs)]) == fs
    ensures Storage.UploadedFilesKey !in m ==> StoredFiles(m) == []
  {
    FilesRoundTrip(fs);
    assert DecodeFileItems([]) == Some([]);
  }

  /** The store after a batch: untouched when nothing was added, otherwise
      holding the list as it now stands. */
  predicate StoredBatch(m: Storage.Memory, m0: Storage.Memory, added: seq<UploadedFile>, current: seq<UploadedFile>) {
    if added == [] then m == m0 else m == m0[Storage.UploadedFilesKey := EncodeFiles(current)]
  }

  /** One more file handled in a batch keeps the store as `StoredBatch` describes it. */
  lemma StoredBatchStep(m: Storage.Memory, m': Storage.Memory, m0: Storage.Memory, added: seq<UploadedFile>,
                        added': seq<UploadedFile>, before: seq<UploadedFile>, after: seq<UploadedFile>, grew: bool)
    requires StoredBatch(m, m0, added, before)
    requires !grew ==> m' == m && after == before && added' == added
    requires grew ==> m' == m[Storage.UploadedFilesKey := EncodeFiles(after)] && added' != []
    ensures StoredBatch(m', m0, added', after)
  {
  }

  class DocumentManager {
    var uploadedFiles: seq<UploadedFile>
    var requiredDocs: seq<string>
    /** The next fresh id token (the source draws `Date.now() + Math.random()`). */
    var nextId: nat
    const store: Storage.StorageManager

    /** Every id in use was drawn before `nextId`, so a new token is unused. */
    ghost predicate Valid()
      reads this
    {
      forall i :: 0 <= i < |uploadedFiles| ==> uploadedFiles[i].id < nextId
    }

    constructor (store: Storage.StorageManager)
      ensures this.store == store
      ensures uploadedFiles == [] && requiredDocs == [] && nextId == 0
      ensures Valid()
    {
      this.store := store;
      uploadedFiles := [];
      requiredDocs := [];
      nextId := 0;
    }

    /** `isDocumentUploaded(docName)` over the current uploads. */
    predicate IsDocumentUploaded(doc: string)
      reads this
    {
      Matching.IsDocumentUploaded(doc, FileNames(uploadedFiles))
    }

    /** The progress `updateDashboard()` shows for the current state. */
    function CurrentProgress(): Progress
      reads this
    {
      DocsProgress(requiredDocs, FileNames(uploadedFiles))
    }

    /** `loadUploadedFiles()`. */
    method LoadUploadedFiles()
      modifies this`uploadedFiles, this`nextId
      ensures uploadedFiles == StoredFiles(store.memory)
      ensures nextId >= old(nextId)
      ensures Valid()
    {
      uploadedFiles := StoredFiles(store.memory);
      var bound := KeyBound(uploadedFiles, (f: UploadedFile) => f.id);
      if bound > nextId {
        nextId := bound;
      }
    }

    /** `loadRequiredDocs()`: the stored list replaces the current one when there is one. */
    method LoadRequiredDocs()
      modifies this`requiredDocs
      ensures requiredDocs == StoredRequiredDocs(store.memory).GetOr(old(requiredDocs))
    {
      var stored := StoredRequiredDocs(store.memory);
      if stored.Some? {
        requiredDocs := stored.value;
      }
    }

    /** The completion of `addFile(file)`: the new entry goes to the end of the
        list with a fresh id, and the list is stored. */
    method AddFile(f: FileInfo)
      requires Valid()
      modifies this`uploadedFiles, this`nextId, store
      ensures uploadedFiles == old(uploadedFiles) + [NewEntry(f, old(nextId))]
      ensures nextId == old(nextId) + 1
      ensures store.memory == old(store.memory)[Storage.UploadedFilesKey := EncodeFiles(uploadedFiles)]
      ensures Valid()
    {
      uploadedFiles := uploadedFiles + [NewEntry(f, nextId)];
      nextId := nextId + 1;
      var _ := store.SaveUploadedFiles(EncodeFiles(uploadedFiles));
    }

    /** `handleFiles(files)`: every file that passes `validateFile` is added, in
        order; a refused file changes nothing and stores nothing. */
    method HandleFiles(files: seq<FileInfo>)
      requires Valid()
      modifies this`uploadedFiles, this`nextId, store
      ensures uploadedFiles == old(uploadedFiles) + Admitted(files, old(nextId))
      ensures nextId == old(nextId) + |Admitted(files, old(nextId))|
      ensures StoredBatch(store.memory, old(store.memory), Admitted(files, old(nextId)), uploadedFiles)
      ensures Valid()
    {
      var i := 0;
      while i < |files|
        invariant 0 <= i <= |files|
        invariant uploadedFiles == old(uploadedFiles) + Admitted(files[..i], old(nextId))
        invariant nextId == old(nextId) + |Admitted(files[..i], old(nextId))|
        invariant StoredBatch(store.memory, old(store.memory), Admitted(files[..i], old(nextId)), uploadedFiles)
        invariant Valid()
      {
        AdmittedStep(files, i, old(nextId));
        ghost var before, m := uploadedFiles, store.memory;
        HandleFile(files[i]);
        StoredBatchStep(m, store.memory, old(store.memory), Admitted(files[..i], old(nextId)),
                        Admitted(files[..i + 1], old(nextId)), before, uploadedFiles, IsAccepted(files[i]));
        i := i + 1;
      }
      assert files[..i] == files;
    }

    /** One file of `handleFiles`: added when `validateFile` accepts it. */
    method HandleFile(f: FileInfo)
      requires Valid()
      modifies this`uploadedFiles, this`nextId, store
      ensures uploadedFiles == old(uploadedFiles) + (if IsAccepted(f) then [NewEntry(f, old(nextId))] else [])
      ensures nextId == old(nextId) + (if IsAccepted(f) then 1 else 0)
      ensures if IsAccepted(f) then store.memory == old(store.memory)[Storage.UploadedFilesKey := EncodeFiles(uploadedFiles)]
              else store.memory == old(store.memory)
      ensures Valid()
    {
      if Validate(f) == Accepted {
        AddFile(f);
      }
    }

    /** The upload entry points (click, drop and keyboard), every one of them
        behind the consent gate: without consent nothing is uploaded. */
    method Upload(files: seq<FileInfo>, featuresEnabled: bool)
      requires Valid()
      modifies this`uploadedFiles, this`nextId, store
      ensures !featuresEnabled ==>
                uploadedFiles == old(uploadedFiles) && nextId == old(nextId) && store.memory == old(store.memory)
      ensures featuresEnabled ==>
                && uploadedFiles == old(uploadedFiles) + Admitted(files, old(nextId))
                && nextId == old(nextId) + |Admitted(files, old(nextId))|
                && StoredBatch(store.memory, old(store.memory), Admitted(files, old(nextId)), uploadedFiles)
      ensures Valid()
    {
      if featuresEnabled {
        HandleFiles(files);
      }
    }

    /** `removeFile(fileId)`, comparing id texts; the list is stored again. */
    method RemoveFile(fileId: string)
      requires Valid()
      modifies this`uploadedFiles, store
      ensures uploadedFiles == RemoveById(old(uploadedFiles), fileId)
      ensures store.memory == old(store.memory)[Storage.UploadedFilesKey := EncodeFiles(uploadedFiles)]
      ensures Valid()
    {
      var before := uploadedFiles;
      uploadedFiles := RemoveById(uploadedFiles, fileId);
      forall i | 0 <= i < |uploadedFiles| ensures uploadedFiles[i].id < nextId {
        assert uploadedFiles[i] in multiset(before);
      }
      var _ := store.SaveUploadedFiles(EncodeFiles(uploadedFiles));
    }

    /** `saveRequiredDocs()`. */
    method SaveRequiredDocs()
      modifies store
      ensures store.memory == old(store.memory)[Storage.ClientDataKey :=
                WithRequiredDocs(Storage.LoadFrom(old(store.memory), Storage.ClientDataKey), requiredDocs)]
    {
      var _ := store.SaveClientData(WithRequiredDocs(store.LoadClientData(), requiredDocs));
    }

    /** `updateRequiredDocuments(visaType)`: a catalogued route replaces the
        checklist and stores it; any other value changes nothing. */
    method UpdateRequiredDocuments(visaType: string)
      modifies this`requiredDocs, store
      ensures Catalog.RequiredDocuments(visaType).None? ==>
                requiredDocs == old(requiredDocs) && store.memory == old(store.memory)
      ensures Catalog.RequiredDocuments(visaType).Some? ==>
                && requiredDocs == Catalog.RequiredDocuments(visaType).value
                && store.memory == old(store.memory)[Storage.ClientDataKey :=
                     WithRequiredDocs(Storage.LoadFrom(old(store.memory), Storage.ClientDataKey), requiredDocs)]
    {
      var docs := Catalog.RequiredDocuments(visaType);
      if docs.Some? {
        requiredDocs := docs.value;
        SaveRequiredDocs();
      }
    }
  }
}
