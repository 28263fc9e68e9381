/** The upload and verification session of the front end (src/App.tsx).

    The session holds the uploaded documents, whether an analysis is in
    flight, the last report and the last error message. Adding files
    appends pending documents and starts one file read per file; each read
    that finishes marks, by file NAME, every document of that name as
    completed with the text read. Reads finish in any order, which the
    model expresses as a sequence of completion events. Starting the
    verification joins the readable contents and hands them to the
    analysis client, whose answer is a parameter. */
module Session {
  import opened Types

  /** The part of a browser `File` the session copies. */
  datatype FileInfo = FileInfo(name: string, mimeType: string, size: nat)

  /** One finished file read: the name of the file it was started for, the
      text read, and the ciphertext `encryptData` produced, or `None` when
      that promise rejected, in which case the handler never updates the
      list. */
  datatype ReadCompletion = ReadCompletion(fileName: string, text: string, encrypted: Option<Bytes>)

  /** What `analyzePropertyDocuments` settles with. */
  datatype AnalysisOutcome = Analysed(report: VerificationResult) | Failed(message: string)

  const NoContentMessage := "No readable content found in documents."
  const GenericFailureMessage := "An error occurred during verification."
  const Separator := "\n\n"

  /* ---------------- adding files ---------------- */

  /** `files.map(...)`: one pending document per file, in file order, with
      the identifier drawn for it. */
  function NewDocs(files: seq<FileInfo>, ids: seq<string>): (docs: seq<PropertyDocument>)
    requires |ids| == |files|
    ensures |docs| == |files|
    ensures forall i :: 0 <= i < |docs| ==>
              && docs[i].id == ids[i]
              && docs[i].name == files[i].name
              && docs[i].mimeType == files[i].mimeType
              && docs[i].size == files[i].size
              && docs[i].content == None && docs[i].encryptedContent == None
              && docs[i].status == Pending
  {
    if |files| == 0 then []
    else
      [PropertyDocument(ids[0], files[0].name, files[0].mimeType, files[0].size, None, None, Pending)]
      + NewDocs(files[1..], ids[1..])
  }

  /* ---------------- read completions ---------------- */

  /** A document after its read completed with `text`. */
  function AsCompleted(d: PropertyDocument, text: string, enc: Bytes): PropertyDocument
  {
    d.(content := Some(text), encryptedContent := Some(enc), status := Completed)
  }

  /** `prev.map(doc => doc.name === name ? {...} : doc)`: the list keeps its
      length and order; exactly the documents called `name` are completed,
      every other one is left as it was. */
  function MarkCompleted(docs: seq<PropertyDocument>, name: string, text: string, enc: Bytes)
    : (r: seq<PropertyDocument>)
    ensures |r| == |docs|
    ensures forall i :: 0 <= i < |docs| ==>
              r[i] == if docs[i].name == name then AsCompleted(docs[i], text, enc) else docs[i]
  {
    if |docs| == 0 then []
    else
      [if docs[0].name == name then AsCompleted(docs[0], text, enc) else docs[0]]
      + MarkCompleted(docs[1..], name, text, enc)
  }

  /** One read's `onload` handler: nothing changes when encryption failed;
      otherwise the documents named like the file are completed with the
      text and the ciphertext, and no other document changes. */
  function ApplyCompletion(docs: seq<PropertyDocument>, e: ReadCompletion): (r: seq<PropertyDocument>)
    ensures e.encrypted.None? ==> r == docs
    ensures |r| == |docs|
    ensures e.encrypted.Some? ==>
              forall i :: 0 <= i < |docs| ==>
                r[i] == if docs[i].name == e.fileName then AsCompleted(docs[i], e.text, e.encrypted.value) else docs[i]
  {
    match e.encrypted
    case None => docs
    case Some(enc) => MarkCompleted(docs, e.fileName, e.text, enc)
  }

  /** The list after the given completions, in the order they arrived. */
  function ApplyCompletions(docs: seq<PropertyDocument>, events: seq<ReadCompletion>)
    : (r: seq<PropertyDocument>)
    ensures |r| == |docs|
    ensures forall i :: 0 <= i < |docs| ==> r[i].id == docs[i].id && r[i].name == docs[i].name
  {
    if |events| == 0 then docs
    else ApplyCompletion(ApplyCompletions(docs, events[..|events| - 1]), events[|events| - 1])
  }

  /** The last completion for `name` whose encryption succeeded, if any. */
  function LastFor(events: seq<ReadCompletion>, name: string): Option<ReadCompletion>
  {
    if |events| == 0 then None
    else
      var e := events[|events| - 1];
      if e.fileName == name && e.encrypted.Some? then Some(e)
      else LastFor(events[..|events| - 1], name)
  }

  /** The document at `i` after a read completion, in terms of the event. */
  function AfterLast(d: PropertyDocument, last: Option<ReadCompletion>): PropertyDocument
    requires last.Some? ==> last.value.encrypted.Some?
  {
    match last
    case None => d
    case Some(e) => AsCompleted(d, e.text, e.encrypted.value)
  }

  lemma LastForIsSuccessful(events: seq<ReadCompletion>, name: string)
    ensures LastFor(events, name).Some? ==>
              LastFor(events, name).value.encrypted.Some? && LastFor(events, name).value.fileName == name
  {
    if |events| > 0 { LastForIsSuccessful(events[..|events| - 1], name); }
  }

  /** Last write wins, whatever the order of arrival: each document ends up
      as the LAST successful completion carrying its name made it, and is
      untouched when there was none. Earlier uploads of the same name are
      completed along with later ones. */
  lemma {:induction false} CompletionsLastWriteWins(docs: seq<PropertyDocument>, events: seq<ReadCompletion>, i: nat)
    requires i < |docs|
    ensures LastFor(events, docs[i].name).Some? ==> LastFor(events, docs[i].name).value.encrypted.Some?
    ensures ApplyCompletions(docs, events)[i] == AfterLast(docs[i], LastFor(events, docs[i].name))
  {
    LastForIsSuccessful(events, docs[i].name);
    if |events| > 0 {
      var front := events[..|events| - 1];
      CompletionsLastWriteWins(docs, front, i);
      LastForIsSuccessful(front, docs[i].name);
    }
  }

  /** Two arrival orders that agree on the last successful completion of
      every name leave the same list; in particular completions for
      different names commute. */
  lemma CompletionOrderIrrelevant(docs: seq<PropertyDocument>, ev1: seq<ReadCompletion>, ev2: seq<ReadCompletion>)
    requires forall name :: LastFor(ev1, name) == LastFor(ev2, name)
    ensures ApplyCompletions(docs, ev1) == ApplyCompletions(docs, ev2)
  {
    var r1, r2 := ApplyCompletions(docs, ev1), ApplyCompletions(docs, ev2);
    forall i | 0 <= i < |docs| ensures r1[i] == r2[i] {
      CompletionsLastWriteWins(docs, ev1, i);
      CompletionsLastWriteWins(docs, ev2, i);
    }
  }

  /** A second completion for a name overwrites the first. */
  lemma SecondCompletionOverwrites(docs: seq<PropertyDocument>, name: string, t1: string, e1: Bytes, t2: string, e2: Bytes)
    ensures MarkCompleted(MarkCompleted(docs, name, t1, e1), name, t2, e2) == MarkCompleted(docs, name, t2, e2)
  {
    var r := MarkCompleted(MarkCompleted(docs, name, t1, e1), name, t2, e2);
    assert forall i :: 0 <= i < |docs| ==> r[i] == MarkCompleted(docs, name, t2, e2)[i];
  }

  /* ---------------- documents stay well formed ---------------- */

  /** A document is pending with nothing read, or completed with its text
      and its ciphertext. */
  predicate DocWellFormed(d: PropertyDocument)
  {
    || (d.status == Pending && d.content.None? && d.encryptedContent.None?)
    || (d.status == Completed && d.content.Some? && d.encryptedContent.Some?)
  }

  predicate WellFormed(docs: seq<PropertyDocument>)
  {
    forall i :: 0 <= i < |docs| ==> DocWellFormed(docs[i])
  }

  lemma NewDocsWellFormed(docs: seq<PropertyDocument>, files: seq<FileInfo>, ids: seq<string>)
    requires |ids| == |files| && WellFormed(docs)
    ensures WellFormed(docs + NewDocs(files, ids))
  {
    var r := docs + NewDocs(files, ids);
    forall i | 0 <= i < |r| ensures DocWellFormed(r[i]) {
      if i >= |docs| { assert r[i] == NewDocs(files, ids)[i - |docs|]; }
    }
  }

  lemma CompletionWellFormed(docs: seq<PropertyDocument>, e: ReadCompletion)
    requires WellFormed(docs)
    ensures WellFormed(ApplyCompletion(docs, e))
  {
  }

  /* ---------------- the text sent for analysis ---------------- */

  /** `d.content` is truthy: present and not empty. */
  predicate Readable(d: PropertyDocument)
  {
    d.content.Some? && d.content.value != ""
  }

  /** `documents.map(d => d.content).filter(Boolean)`. */
  function ReadableContents(docs: seq<PropertyDocument>): (parts: seq<string>)
    ensures forall k :: 0 <= k < |parts| ==> parts[k] != ""
  {
    if |docs| == 0 then []
    else (if Readable(docs[0]) then [docs[0].content.value] else []) + ReadableContents(docs[1..])
  }

  /** `Array.prototype.join`: the parts with `sep` between neighbours. No
      parts give the empty string; non-empty parts never do. */
  function Join(parts: seq<string>, sep: string): (r: string)
    ensures parts == [] ==> r == ""
    ensures parts != [] && (forall k :: 0 <= k < |parts| ==> parts[k] != "") ==> |r| >= |parts[0]| > 0
  {
    if |parts| == 0 then ""
    else if |parts| == 1 then parts[0]
    else parts[0] + sep + Join(parts[1..], sep)
  }

  /** The text `startVerification` sends. It is empty exactly when no
      document has readable content, and then no analysis is requested. */
  function AllText(docs: seq<PropertyDocument>): (text: string)
    ensures text == "" <==> forall i :: 0 <= i < |docs| ==> !Readable(docs[i])
  {
    ReadableContentsEmpty(docs);
    Join(ReadableContents(docs), Separator)
  }

  lemma {:induction false} ReadableContentsAppend(a: seq<PropertyDocument>, b: seq<PropertyDocument>)
    ensures ReadableContents(a + b) == ReadableContents(a) + ReadableContents(b)
  {
    if |a| > 0 {
      assert (a + b)[1..] == a[1..] + b;
      ReadableContentsAppend(a[1..], b);
    } else {
      assert a + b == b;
    }
  }

  lemma {:induction false} ReadableContentsEmpty(docs: seq<PropertyDocument>)
    ensures ReadableContents(docs) == [] <==> forall i :: 0 <= i < |docs| ==> !Readable(docs[i])
  {
    if |docs| > 0 {
      ReadableContentsEmpty(docs[1..]);
      assert forall i :: 1 <= i < |docs| ==> docs[i] == docs[1..][i - 1];
    }
  }

  /** Filtering the list with one more document at its end: the document's
      content follows the others exactly when it is readable. */
  lemma ReadableContentsSnoc(docs: seq<PropertyDocument>, d: PropertyDocument)
    ensures ReadableContents(docs + [d]) ==
              ReadableContents(docs) + (if Readable(d) then [d.content.value] else [])
  {
    ReadableContentsAppend(docs, [d]);
    assert [d][1..] == [];
  }

  lemma {:induction false} JoinSnoc(parts: seq<string>, x: string, sep: string)
    ensures Join(parts + [x], sep) == if parts == [] then x else Join(parts, sep) + sep + x
  {
    if |parts| >= 2 {
      assert (parts + [x])[1..] == parts[1..] + [x];
      JoinSnoc(parts[1..], x, sep);
    } else if |parts| == 1 {
      assert parts + [x] == [parts[0], x];
    } else {
      assert parts + [x] == [x];
    }
  }

  /** A document without readable content adds neither text nor separator,
      wherever it stands in the list. */
  lemma AllTextSkipsUnreadable(a: seq<PropertyDocument>, d: PropertyDocument, b: seq<PropertyDocument>)
    requires !Readable(d)
    ensures AllText(a + [d] + b) == AllText(a + b)
  {
    ReadableContentsAppend(a + [d], b);
    ReadableContentsSnoc(a, d);
    ReadableContentsAppend(a, b);
    assert ReadableContents(a + [d] + b) == ReadableContents(a + b);
  }

  /** A readable document adds its content after the text so far, separated
      from it by a blank line unless it is the first readable one. */
  lemma AllTextAppendReadable(docs: seq<PropertyDocument>, d: PropertyDocument)
    requires Readable(d)
    ensures AllText(docs + [d]) ==
              if AllText(docs) == "" then d.content.value else AllText(docs) + Separator + d.content.value
  {
    ReadableContentsSnoc(docs, d);
    JoinSnoc(ReadableContents(docs), d.content.value, Separator);
  }

  /** Two read documents, joined with a blank line between them. */
  lemma AllTextOfTwoDocuments(d1: PropertyDocument, d2: PropertyDocument)
    requires d1.content == Some("Deed 1995") && d2.content == Some("Survey 2020")
    ensures AllText([d1, d2]) == "Deed 1995\n\nSurvey 2020"
  {
    assert [] + [d1] == [d1] && [d1] + [d2] == [d1, d2];
    AllTextAppendReadable([], d1);
    assert AllText([d1]) == "Deed 1995";
    AllTextAppendReadable([d1], d2);
    assert "Deed 1995" + Separator + "Survey 2020" == "Deed 1995\n\nSurvey 2020";
  }

  /** `err.message || "An error occurred during verification."`. */
  function ErrorText(message: string): (text: string)
    ensures text != ""
    ensures message != "" ==> text == message
    ensures message == "" ==> text == GenericFailureMessage
  {
    if message != "" then message else GenericFailureMessage
  }

  /** On well-formed documents only completed ones are readable, so the text
      sent for analysis comes from completed reads alone, and a non-empty
      text means some read has completed. */
  lemma ReadableOnlyWhenCompleted(docs: seq<PropertyDocument>)
    requires WellFormed(docs)
    ensures forall i :: 0 <= i < |docs| && Readable(docs[i]) ==> docs[i].status == Completed
    ensures AllText(docs) != "" ==> exists i :: 0 <= i < |docs| && docs[i].status == Completed
  {
    if AllText(docs) != "" {
      var i :| 0 <= i < |docs| && Readable(docs[i]);
      assert DocWellFormed(docs[i]);
    }
  }

  /* ---------------- the session ---------------- */

  class Session {
    var documents: seq<PropertyDocument>
    var isProcessing: bool
    var result: Option<VerificationResult>
    var error: Option<string>

    ghost predicate Valid()
      reads this
    {
      WellFormed(documents)
    }

    /** The negation of the verify button's `disabled` condition: some document is listed,
        whether or not its read has completed, and no analysis is in flight. */
    predicate CanVerify()
      reads this
      ensures CanVerify() <==> documents != [] && !isProcessing
    {
      |documents| > 0 && !isProcessing
    }

    /** The state a page load starts with. */
    constructor ()
      ensures Valid()
      ensures documents == [] && !isProcessing && result == None && error == None
    {
      documents := [];
      isProcessing := false;
      result := None;
      error := None;
    }

    /** `handleFilesAdded`: appends one pending document per file after the
        existing ones and starts one read per file, in file order; the
        names it returns are those the reads' completions will carry. */
    method AddFiles(files: seq<FileInfo>, ids: seq<string>) returns (readsStarted: seq<string>)
      requires Valid() && |ids| == |files|
      modifies this
      ensures Valid()
      ensures documents == old(documents) + NewDocs(files, ids)
      ensures isProcessing == old(isProcessing) && result == old(result) && error == old(error)
      ensures |readsStarted| == |files|
      ensures forall k :: 0 <= k < |files| ==> readsStarted[k] == files[k].name
    {
      NewDocsWellFormed(documents, files, ids);
      documents := documents + NewDocs(files, ids);
      readsStarted := [];
      for k := 0 to |files|
        invariant |readsStarted| == k
        invariant forall j :: 0 <= j < k ==> readsStarted[j] == files[j].name
      {
        readsStarted := readsStarted + [files[k].name];
      }
    }

    /** A read's `onload` handler running to completion. */
    method CompleteRead(e: ReadCompletion)
      requires Valid()
      modifies this
      ensures Valid()
      ensures documents == ApplyCompletion(old(documents), e)
      ensures isProcessing == old(isProcessing) && result == old(result) && error == old(error)
    {
      CompletionWellFormed(documents, e);
      match e.encrypted {
        case None =>
        case Some(enc) => documents := MarkCompleted(documents, e.fileName, e.text, enc);
      }
    }

    /** `startVerification`. On an empty list nothing happens. Otherwise the
        error is cleared, the joined text is sent for analysis unless it is
        empty, the report replaces the old one only on success, the error
        message is set on failure, and the session is never left
        processing. `sent` is the text handed to `analyze`, if any. */
    method StartVerification(analyze: string -> AnalysisOutcome) returns (sent: Option<string>)
      requires Valid()
      modifies this
      ensures Valid() && documents == old(documents)
      ensures old(documents) == [] ==>
                && sent == None && isProcessing == old(isProcessing)
                && result == old(result) && error == old(error)
      ensures old(documents) != [] ==> !isProcessing && CanVerify()
      ensures old(documents) != [] && AllText(documents) == "" ==>
                sent == None && error == Some(NoContentMessage) && result == old(result)
      ensures sent.Some? ==>
                exists i :: 0 <= i < |documents| && documents[i].status == Completed
      ensures old(documents) != [] && AllText(documents) != "" ==>
                && sent == Some(AllText(documents))
                && match analyze(AllText(documents))
                   case Analysed(report) => result == Some(report) && error == None
                   case Failed(message) => result == old(result) && error == Some(ErrorText(message))
    {
      if |documents| == 0 {
        return None;
      }
      isProcessing := true;
      error := None;
      // try {
      var allText := AllText(documents);
      if allText == "" {
        sent := None;
        error := Some(ErrorText(NoContentMessage));
      } else {
        ReadableOnlyWhenCompleted(documents);
        sent := Some(allText);
        var analysis := analyze(allText);
        match analysis {
          case Analysed(report) => result := Some(report);
          case Failed(message) => error := Some(ErrorText(message));
        }
      }
      // } finally {
      isProcessing := false;
    }

    /** `reset`: back to the state of a fresh page. */
    method Reset()
      modifies this
      ensures Valid() && !CanVerify()
      ensures documents == [] && result == None && error == None && !isProcessing
    {
      documents := [];
      result := None;
      error := None;
      isProcessing := false;
    }
  }
}
