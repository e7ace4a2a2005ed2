/**
 * The application controller: demo mode (toggling, persisting and loading
 * the sample case), the WhatsApp message built from the stored case, the
 * phone number of the wa.me link, and the controller's own copy of the
 * document keyword rule.
 */
module App {
  import opened Wrappers
  import opened Strings
  import opened Json
  import opened Seqs
  import Storage
  import Records
  import Catalog
  import Matching
  import Deadlines
  import Documents
  import Intake

  /** The sample case `loadDemoData` stores. */
  const DemoData: map<string, string> := map[
    "clientName" := "John Smith",
    "clientEmail" := "john.smith@example.com",
    "clientPhone" := "+44 7700 900123",
    "clientAddress" := "123 High Street",
    "clientCity" := "London",
    "clientPostcode" := "SW1A 1AA",
    "visaType" := "Spouse Visa",
    "deadline1" := "2025-12-15",
    "deadline2" := "2025-12-20",
    "deadline3" := "2026-02-15",
    "deadline4" := "",
    "caseNotes" := "Client is British citizen sponsoring spouse from USA. Currently on visit visa, switching in-country.",
    "gdprConsent" := "on"
  ]

  /** The entries of the sample case that the deadline and checklist code reads. */
  lemma DemoFields()
    ensures "deadline1" in DemoData && DemoData["deadline1"] == "2025-12-15"
    ensures "deadline2" in DemoData && DemoData["deadline2"] == "2025-12-20"
    ensures "deadline3" in DemoData && DemoData["deadline3"] == "2026-02-15"
    ensures "deadline4" in DemoData && DemoData["deadline4"] == ""
    ensures "visaType" in DemoData && DemoData["visaType"] == "Spouse Visa"
  {
  }

  /** A form whose first three deadline fields are set and whose appeal date
      is empty keeps the first three fields of the table. */
  lemma ThreeFieldsKept(form: Deadlines.Form)
    requires Deadlines.FieldSet(form, "deadline1") && Deadlines.FieldSet(form, "deadline2")
    requires Deadlines.FieldSet(form, "deadline3") && !Deadlines.FieldSet(form, "deadline4")
    ensures Filter(Deadlines.DeadlineFields, Deadlines.IsSetField(form)) == Deadlines.DeadlineFields[..3]
  {
    var fields := Deadlines.DeadlineFields;
    var isSet := Deadlines.IsSetField(form);
    var f0, f1, f2, f3 := fields[0], fields[1], fields[2], fields[3];
    assert fields == [f0] + [f1] + [f2] + [f3];
    assert Filter([f0], isSet) == [f0];
    assert Filter([f1], isSet) == [f1];
    assert Filter([f2], isSet) == [f2];
    assert Filter([f3], isSet) == [];
    FilterConcat([f0] + [f1] + [f2], [f3], isSet);
    FilterConcat([f0] + [f1], [f2], isSet);
    FilterConcat([f0], [f1], isSet);
  }

  /** A form whose first three deadline fields are set and whose appeal date
      is empty yields three deadlines, in field order. */
  lemma ThreeDatedFields(form: Deadlines.Form, d1: string, d2: string, d3: string, next: nat)
    requires "deadline1" in form && form["deadline1"] == d1 && d1 != ""
    requires "deadline2" in form && form["deadline2"] == d2 && d2 != ""
    requires "deadline3" in form && form["deadline3"] == d3 && d3 != ""
    requires "deadline4" in form && form["deadline4"] == ""
    ensures Deadlines.FieldDeadlines(form, Deadlines.DeadlineFields, next)
            == [Records.Deadline("Application Submission", d1, next),
                Records.Deadline("Biometrics Appointment", d2, next + 1),
                Records.Deadline("Decision Expected", d3, next + 2)]
  {
    ThreeFieldsKept(form);
    ThreeEntries(form, d1, d2, d3, next);
  }

  lemma ThreeEntries(form: Deadlines.Form, d1: string, d2: string, d3: string, next: nat)
    requires "deadline1" in form && form["deadline1"] == d1
    requires "deadline2" in form && form["deadline2"] == d2
    requires "deadline3" in form && form["deadline3"] == d3
    ensures Deadlines.Entries(form, Deadlines.DeadlineFields[..3], next)
            == [Records.Deadline("Application Submission", d1, next),
                Records.Deadline("Biometrics Appointment", d2, next + 1),
                Records.Deadline("Decision Expected", d3, next + 2)]
  {
    var kept := Deadlines.DeadlineFields[..3];
    assert kept == [("deadline1", "Application Submission"), ("deadline2", "Biometrics Appointment"),
                    ("deadline3", "Decision Expected")];
    var e := Deadlines.Entries(form, kept, next);
    assert e[0] == Records.Deadline("Application Submission", d1, next);
    assert e[1] == Records.Deadline("Biometrics Appointment", d2, next + 1);
    assert e[2] == Records.Deadline("Decision Expected", d3, next + 2);
  }

  /** The deadlines the sample case yields: the three dated fields, in field
      order; the empty appeal date yields none. */
  lemma DemoDeadlines(next: nat)
    ensures Deadlines.FieldDeadlines(DemoData, Deadlines.DeadlineFields, next)
            == [Records.Deadline("Application Submission", "2025-12-15", next),
                Records.Deadline("Biometrics Appointment", "2025-12-20", next + 1),
                Records.Deadline("Decision Expected", "2026-02-15", next + 2)]
  {
    DemoFields();
    ThreeDatedFields(DemoData, "2025-12-15", "2025-12-20", "2026-02-15", next);
  }

  /** The sample case names a catalogued route, the spouse route. */
  lemma DemoRoute()
    ensures Intake.VisaTypeOf(DemoData) == "Spouse Visa"
    ensures Catalog.RequiredDocuments("Spouse Visa") == Some(Catalog.VisaTypes["Spouse Visa"])
  {
  }

  // ---------------------------------------------------------------------
  // The keyword rule, as the controller applies it

  /** `isDocumentUploaded(docName, uploadedFiles)`: `None` stands for a
      missing (`null` or `undefined`) file list, which satisfies nothing. */
  predicate AppIsDocumentUploaded(doc: string, files: Option<seq<string>>)
  {
    files.Some? && Matching.IsDocumentUploaded(doc, files.value)
  }

  /** The controller's rule and the document manager's rule agree on every
      label and every list of uploads; a missing list satisfies nothing. */
  lemma AppRuleAgrees(dm: Documents.DocumentManager, doc: string)
    ensures AppIsDocumentUploaded(doc, Some(Records.FileNames(dm.uploadedFiles))) <==> dm.IsDocumentUploaded(doc)
    ensures !AppIsDocumentUploaded(doc, None)
  {
  }

  /** The negated rule, as the `filter` of the message applies it. */
  function NotUploaded(names: seq<string>): string -> bool {
    (doc: string) => !AppIsDocumentUploaded(doc, Some(names))
  }

  // ---------------------------------------------------------------------
  // The WhatsApp message

  const Greeting := "Hi! I've started my UK immigration application.\n\n"
  const Closing := "\nCan you assist me with my application?"
  const HelpHeading := "\nI need help uploading:\n"

  /** The most entries the help list shows. */
  const HelpLimit := 3

  /** The line `label + value + "\n"` for a client field, present only when the field is truthy. */
  function FieldLine(clientData: Json, key: string, caption: string): (r: string)
    ensures r == "" <==> !HasTruthy(clientData, key)
  {
    if HasTruthy(clientData, key) then caption + Display(Get(clientData, key).value) + "\n" else ""
  }

  /** The "Next Deadline" line, from the first entry of the stored list.  A
      non-empty text stored in place of the list has a first character
      but neither `type` nor `date`. */
  function DeadlineLine(deadlines: Json): string {
    match deadlines
    case Arr(items) =>
      if |items| > 0
      then "\nNext Deadline: " + DisplayOpt(Get(items[0], "type")) + " on " + DisplayOpt(Get(items[0], "date")) + "\n"
      else ""
    case Str(s) => if |s| > 0 then "\nNext Deadline: undefined on undefined\n" else ""
    case _ => ""
  }

  /** The stored checklist of the client data, when it is a list of texts. */
  function RequiredDocsOf(clientData: Json): Option<seq<string>> {
    if HasTruthy(clientData, "requiredDocs") && Get(clientData, "requiredDocs").value.Arr?
    then StrItems(Get(clientData, "requiredDocs").value.items)
    else None
  }

  /** The checklist entries no upload satisfies, in checklist order. */
  function MissingDocs(clientData: Json, names: seq<string>): seq<string> {
    match RequiredDocsOf(clientData)
    case Some(docs) => Filter(docs, NotUploaded(names))
    case None => []
  }

  /** `missingDocs.slice(0, 3)`. */
  function HelpList(missing: seq<string>): (r: seq<string>)
    ensures |r| <= HelpLimit
    ensures |r| == if |missing| < HelpLimit then |missing| else HelpLimit
    ensures r == missing[..|r|]
  {
    if |missing| < HelpLimit then missing else missing[..HelpLimit]
  }

  /** One bulleted line per label, in order. */
  function Bullets(docs: seq<string>): string {
    if docs == [] then "" else Bullets(docs[..|docs| - 1]) + Bullet(docs[|docs| - 1])
  }

  function Bullet(doc: string): string {
    "• " + doc + "\n"
  }

  function HelpSection(missing: seq<string>): string {
    if |missing| > 0 then HelpHeading + Bullets(HelpList(missing)) else ""
  }

  /** `generateWhatsAppMessage()` over what it loads: the client data (`Null`
      when absent), the deadline list and the names of the uploaded files.
      Whatever the store holds, the message opens with the greeting and ends
      with the closing question. */
  function WhatsAppMessage(clientData: Json, deadlines: Json, names: seq<string>): (m: string)
    ensures IsPrefix(Greeting, m)
    ensures |m| >= |Greeting| + |Closing| && m[|m| - |Closing|..] == Closing
  {
    var name := FieldLine(clientData, "clientName", "Name: ");
    var visa := FieldLine(clientData, "visaType", "Visa Type: ");
    var next := DeadlineLine(deadlines);
    var help := HelpSection(MissingDocs(clientData, names));
    Regroup(Greeting, name, visa, next, help, Closing);
    Greeting + name + visa + next + help + Closing
  }

  /** Regroupings of a six-part message. */
  lemma Regroup(a: string, b: string, c: string, d: string, e: string, f: string)
    ensures a + b + c + d + e + f == a + (b + c + d + e) + f
    ensures a + b + c + d + e + f == a + b + (c + d + e + f)
    ensures a + b + c + d + e + f == a + b + c + (d + e + f)
  {
  }

  /** The message for a store, as `generateWhatsAppMessage` loads it. */
  function MessageOf(m: Storage.Memory): string {
    WhatsAppMessage(Storage.LoadFrom(m, Storage.ClientDataKey), Storage.ListIn(m, Storage.DeadlinesKey),
                    Records.FileNames(Documents.StoredFiles(m)))
  }

  /** An empty store gives the greeting and the closing question and nothing else. */
  lemma EmptyStoreMessage()
    ensures MessageOf(map[]) == Greeting + Closing
  {
    Documents.StoredFilesRoundTrip(map[], []);
    assert DeadlineLine(Arr([])) == "";
    assert Greeting + "" + "" + "" + "" + Closing == Greeting + Closing;
  }

  /** A truthy name or visa type shows up in the message as its own line. */
  lemma ClientLinesShown(clientData: Json, deadlines: Json, names: seq<string>)
    ensures HasTruthy(clientData, "clientName") ==>
              Contains(WhatsAppMessage(clientData, deadlines, names), "Name: " + Display(Get(clientData, "clientName").value) + "\n")
    ensures HasTruthy(clientData, "visaType") ==>
              Contains(WhatsAppMessage(clientData, deadlines, names), "Visa Type: " + Display(Get(clientData, "visaType").value) + "\n")
  {
    var m := WhatsAppMessage(clientData, deadlines, names);
    var name := FieldLine(clientData, "clientName", "Name: ");
    var visa := FieldLine(clientData, "visaType", "Visa Type: ");
    var next := DeadlineLine(deadlines);
    var help := HelpSection(MissingDocs(clientData, names));
    Regroup(Greeting, name, visa, next, help, Closing);
    ContainsMiddle(Greeting, name, visa + next + help + Closing);
    ContainsMiddle(Greeting + name, visa, next + help + Closing);
  }

  lemma AppendAssoc(a: string, b: string, c: string)
    ensures a + b + c == a + (b + c)
  {
  }

  /** Appending an empty part changes nothing. */
  lemma AppendEmpty(a: string, b: string)
    ensures b == "" ==> a + b == a
  {
  }

  /** The middle part of a concatenation occurs in it. */
  lemma ContainsMiddle(a: string, b: string, c: string)
    ensures Contains(a + b + c, b)
  {
    assert (a + b + c)[|a|..|a| + |b|] == b;
    ContainsAt(a + b + c, b, |a|);
  }

  /** The "Next Deadline" line names the first deadline in stored order (the
      form's field order), not the earliest date; no deadlines, no line. */
  lemma NextDeadlineIsStoredFirst(ds: seq<Records.Deadline>)
    ensures ds == [] ==> DeadlineLine(Records.EncodeDeadlines(ds)) == ""
    ensures ds != [] ==>
              DeadlineLine(Records.EncodeDeadlines(ds)) == "\nNext Deadline: " + ds[0].kind + " on " + ds[0].date + "\n"
  {
    if ds != [] {
      var first := Records.EncodeDeadlines(ds).items[0];
      assert first == Records.DeadlineToJson(ds[0]);
      assert Get(first, "type") == Some(Str(ds[0].kind));
      assert Get(first, "date") == Some(Str(ds[0].date));
    }
  }

  /** The help list holds at most three entries, each a checklist entry that
      no upload satisfies, in checklist order; with three or fewer such
      entries it holds every one of them. */
  lemma HelpListIsFirstMissing(clientData: Json, names: seq<string>)
    requires RequiredDocsOf(clientData).Some?
    ensures var shown := HelpList(MissingDocs(clientData, names));
            && |shown| <= HelpLimit
            && shown == Filter(RequiredDocsOf(clientData).value, NotUploaded(names))[..|shown|]
            && (forall i :: 0 <= i < |shown| ==>
                  shown[i] in RequiredDocsOf(clientData).value && !AppIsDocumentUploaded(shown[i], Some(names)))
            && (|MissingDocs(clientData, names)| <= HelpLimit ==>
                  forall d :: d in RequiredDocsOf(clientData).value && !AppIsDocumentUploaded(d, Some(names)) ==> d in shown)
  {
    var docs := RequiredDocsOf(clientData).value;
    var missing := Filter(docs, NotUploaded(names));
    var shown := HelpList(missing);
    forall i | 0 <= i < |shown|
      ensures shown[i] in docs && !AppIsDocumentUploaded(shown[i], Some(names))
    {
      assert shown[i] == missing[i];
      assert shown[i] in multiset(missing);
    }
    if |missing| <= HelpLimit {
      forall d | d in docs && !AppIsDocumentUploaded(d, Some(names))
        ensures d in shown
      {
        FilterKeepsMatches(docs, NotUploaded(names), d);
      }
    }
  }

  /** The help part of `generateWhatsAppMessage`: the heading, then one
      bullet per entry of `missingDocs.slice(0, 3)`, when anything is missing. */
  method AppendHelp(prefix: string, missing: seq<string>) returns (message: string)
    ensures message == prefix + HelpSection(missing)
  {
    message := prefix;
    if |missing| > 0 {
      message := message + HelpHeading;
      var shown := HelpList(missing);
      var i := 0;
      while i < |shown|
        invariant i <= |shown|
        invariant message == prefix + HelpHeading + Bullets(shown[..i])
      {
        assert shown[..i + 1][..i] == shown[..i];
        AppendAssoc(prefix + HelpHeading, Bullets(shown[..i]), Bullet(shown[i]));
        message := message + Bullet(shown[i]);
        i := i + 1;
      }
      assert shown[..i] == shown;
      AppendAssoc(prefix, HelpHeading, Bullets(shown));
    } else {
      AppendEmpty(prefix, HelpSection(missing));
    }
  }

  // ---------------------------------------------------------------------
  // The wa.me link

  const DefaultPhone := "+447000000000"

  /** The phone number of the link: the input with all white space removed,
      or the fixed default when there is no input field. */
  function WhatsAppPhone(input: Option<string>): (p: string)
    ensures NoWhitespace(p)
    ensures input.None? ==> p == DefaultPhone
  {
    match input
    case Some(s) => RemoveWhitespace(s)
    case None => DefaultPhone
  }

  /** Spacing typed into the number never changes the link: a white-space
      character anywhere in the input is dropped. */
  lemma PhoneIgnoresSpacing(a: string, w: char, b: string)
    requires IsWhitespace(w)
    ensures WhatsAppPhone(Some(a + [w] + b)) == WhatsAppPhone(Some(a + b))
  {
    RemoveWhitespaceConcat(a + [w], b);
    RemoveWhitespaceConcat(a, [w]);
    RemoveWhitespaceConcat(a, b);
    assert RemoveWhitespace([w]) == [];
    assert RemoveWhitespace(a) + [] == RemoveWhitespace(a);
  }

  /** The link `openWhatsApp` opens; `encode` is `encodeURIComponent`. */
  function WhatsAppUrl(input: Option<string>, message: string, encode: string -> string): string {
    "https://wa.me/" + WhatsAppPhone(input) + "?text=" + encode(message)
  }

  // ---------------------------------------------------------------------
  // The controller

  class AppManager {
    var demoMode: bool
    const store: Storage.StorageManager
    const deadlines: Deadlines.DeadlineManager
    const documents: Documents.DocumentManager

    /** The managers share the one store, and the deadline manager's ids are fresh. */
    ghost predicate Valid()
      reads this, deadlines
    {
      && deadlines.store == store && documents.store == store
      && deadlines.fields == Deadlines.DeadlineFields
      && deadlines.Valid()
    }

    constructor (store: Storage.StorageManager, deadlines: Deadlines.DeadlineManager,
                 documents: Documents.DocumentManager)
      requires deadlines.store == store && documents.store == store
      requires deadlines.fields == Deadlines.DeadlineFields && deadlines.Valid()
      ensures this.store == store && this.deadlines == deadlines && this.documents == documents
      ensures !demoMode
      ensures Valid()
    {
      this.store := store;
      this.deadlines := deadlines;
      this.documents := documents;
      demoMode := false;
    }

    /** `setupDemoMode()`: the mode comes from the store. */
    method SetupDemoMode()
      modifies this`demoMode
      ensures demoMode == store.IsDemoMode()
    {
      demoMode := store.IsDemoMode();
    }

    /** `loadDemoData()`: the sample case is stored as a submission is: the
        client data, its deadlines (the three of `DemoDeadlines`), and the
        spouse checklist; every other key of the store keeps its value. */
    method LoadDemoData(today: int, formatDate: string -> string)
      requires Valid()
      modifies store, deadlines, documents
      ensures deadlines.deadlines == Deadlines.FieldDeadlines(DemoData, Deadlines.DeadlineFields, old(deadlines.nextId))
      ensures documents.requiredDocs == Catalog.VisaTypes["Spouse Visa"]
      ensures Storage.DeadlinesKey in store.memory && Storage.ClientDataKey in store.memory
      ensures store.memory[Storage.DeadlinesKey] == Records.EncodeDeadlines(deadlines.deadlines)
      ensures store.memory[Storage.ClientDataKey] == Documents.WithRequiredDocs(FromStrings(DemoData), documents.requiredDocs)
      ensures store.memory - {Storage.ClientDataKey, Storage.DeadlinesKey}
              == old(store.memory) - {Storage.ClientDataKey, Storage.DeadlinesKey}
      ensures Valid()
    {
      DemoRoute();
      Intake.SaveSubmission(DemoData, store, deadlines, documents, today, formatDate);
    }

    /** `toggleDemoMode()`: the mode flips and is stored; switching it on
        loads the sample case, switching it off changes nothing else. */
    method ToggleDemoMode(today: int, formatDate: string -> string)
      requires Valid()
      modifies this`demoMode, store, deadlines, documents
      ensures demoMode == !old(demoMode)
      ensures store.IsDemoMode() == demoMode
      ensures !demoMode ==>
                && store.memory == old(store.memory)[Storage.DemoModeKey := Bool(false)]
                && unchanged(deadlines) && unchanged(documents)
      ensures demoMode ==>
                && deadlines.deadlines == Deadlines.FieldDeadlines(DemoData, Deadlines.DeadlineFields, old(deadlines.nextId))
                && documents.requiredDocs == Catalog.VisaTypes["Spouse Visa"]
                && Storage.ClientDataKey in store.memory
                && store.memory[Storage.ClientDataKey] == Documents.WithRequiredDocs(FromStrings(DemoData), documents.requiredDocs)
                && Storage.DeadlinesKey in store.memory
                && store.memory[Storage.DeadlinesKey] == Records.EncodeDeadlines(deadlines.deadlines)
                && store.memory - {Storage.ClientDataKey, Storage.DeadlinesKey, Storage.DemoModeKey}
                   == old(store.memory) - {Storage.ClientDataKey, Storage.DeadlinesKey, Storage.DemoModeKey}
      ensures Valid()
    {
      demoMode := !demoMode;
      var _ := store.SaveDemoMode(demoMode);
      if demoMode {
        ghost var stored := store.memory;
        LoadDemoData(today, formatDate);
        Storage.KeysDistinct();
        Storage.OtherKeyKept(stored, store.memory, Storage.DemoModeKey);
        Storage.DemoSaveKeepsOthers(old(store.memory), store.memory, Bool(true));
      }
    }

    /** `generateWhatsAppMessage()`: the message for what the store holds. */
    method GenerateWhatsAppMessage() returns (message: string)
      ensures message == MessageOf(store.memory)
    {
      var clientData := store.LoadClientData();
      var stored := store.LoadDeadlines();
      var names := Records.FileNames(Documents.StoredFiles(store.memory));
      ghost var name := FieldLine(clientData, "clientName", "Name: ");
      ghost var visa := FieldLine(clientData, "visaType", "Visa Type: ");
      message := Greeting;
      if clientData != Null {
        if HasTruthy(clientData, "clientName") {
          message := message + ("Name: " + Display(Get(clientData, "clientName").value) + "\n");
        }
        AppendEmpty(Greeting, name);
        if HasTruthy(clientData, "visaType") {
          message := message + ("Visa Type: " + Display(Get(clientData, "visaType").value) + "\n");
        }
        AppendEmpty(Greeting + name, visa);
      } else {
        AppendEmpty(Greeting, name);
        AppendEmpty(Greeting + name, visa);
      }
      assert message == Greeting + name + visa;
      message := message + DeadlineLine(stored);
      var missing := MissingDocs(clientData, names);
      message := AppendHelp(message, missing);
      message := message + Closing;
    }

    /** `openWhatsApp()`: the link for the typed number (or the default) and
        the current message. */
    method OpenWhatsApp(input: Option<string>, encode: string -> string) returns (url: string)
      ensures url == WhatsAppUrl(input, MessageOf(store.memory), encode)
    {
      var message := GenerateWhatsAppMessage();
      var phone := if input.Some? then RemoveWhitespace(input.value) else DefaultPhone;
      url := "https://wa.me/" + phone + "?text=" + encode(message);
    }
  }
}
