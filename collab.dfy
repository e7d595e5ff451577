/** The per-session collaboration state: page navigation, local annotations with
    their revision history, the two logs fed by the relay listener (remote
    annotations and chat), the chat send action, the username and the flag that
    starts the listener once. Publishing to the relay is an outside call that
    either returns or raises; whether it raises is a parameter. */
module Collab {
  import opened Text

  /** A decoded JSON value, as far as this model needs to tell values apart. */
  datatype Value = Str(s: string) | Int(i: int) | Real(r: real) | Composite

  /** A decoded JSON object: the dictionaries the session stores and sends. */
  type Record = map<string, Value>

  /** A message as the listener receives it, after `json.loads`. */
  datatype Incoming =
    | Unparsable            // `json.loads` raised
    | NotAnObject           // decoded to a list, string, number or null: `.get` raises
    | Object(fields: Record)

  /** Whether the one-shot publish to the relay went through. */
  datatype Publish = Delivered | PublishFailed

  /** The result of pressing Save Annotation. */
  datatype SaveOutcome = MissingInput | Saved(publish: Publish)

  /** The result of pressing Send Message. `ChatDataUndefined` is the `NameError` a
      blank message runs into: the append sits outside the `if` that builds the
      message, so the name it appends is never bound. */
  datatype SendOutcome = ChatDataUndefined | Sent(publish: Publish)

  /** What the listener did with one message. */
  datatype Delivery = StoredAnnotation | StoredChat | Ignored | Reported

  /** The result of pressing Set Username. */
  datatype NameOutcome = FormHidden | InvalidName | NameSet

  /** `data.get("type") == t`. */
  predicate HasType(r: Record, t: string) {
    "type" in r && r["type"] == Str(t)
  }

  /** The dictionary Save Annotation builds for page `pageIndex` (0-based). */
  function AnnotationRecord(id: string, pageIndex: nat, selected: string, note: string,
                            timestamp: real, user: string): Record
  {
    map["id" := Str(id), "page" := Int(pageIndex + 1), "selected_text" := Str(selected),
        "annotation" := Str(note), "timestamp" := Real(timestamp), "user" := Str(user),
        "type" := Str("annotation")]
  }

  /** The dictionary Send Message builds: the message is stored stripped. */
  function ChatRecord(message: string, timestamp: real, user: string): Record
  {
    map["type" := Str("chat"), "timestamp" := Real(timestamp), "user" := Str(user),
        "message" := Str(Strip(message))]
  }

  /** A local annotation stored under page index `p`. */
  predicate IsAnnotationOf(r: Record, p: nat) {
    HasType(r, "annotation") && "page" in r && r["page"] == Int(p + 1)
    && "id" in r && r["id"].Str?
  }

  /** The annotations of page `p`, empty when the page has none yet. */
  function OnPage(annotations: map<nat, seq<Record>>, p: nat): seq<Record> {
    if p in annotations then annotations[p] else []
  }

  /** The local store after appending `r` to page `p`, creating the page's list if
      needed: exactly `r` is added at the end of that page's list, and every other
      page is left as it was. */
  function Appended(annotations: map<nat, seq<Record>>, p: nat, r: Record): (a: map<nat, seq<Record>>)
    ensures p in a && a[p] == OnPage(annotations, p) + [r]
    ensures a.Keys == annotations.Keys + {p}
    ensures forall q :: q != p ==> OnPage(a, q) == OnPage(annotations, q)
  {
    annotations[p := OnPage(annotations, p) + [r]]
  }

  /** The local store after the successful saves `saves`, each a page index and a
      record, in order. */
  function AppendedAll(annotations: map<nat, seq<Record>>, saves: seq<(nat, Record)>): map<nat, seq<Record>>
    decreases |saves|
  {
    if saves == [] then annotations
    else
      var n := |saves| - 1;
      Appended(AppendedAll(annotations, saves[..n]), saves[n].0, saves[n].1)
  }

  /** The number of saves in `saves` made on page `p`. */
  function SavesOn(saves: seq<(nat, Record)>, p: nat): nat
    decreases |saves|
  {
    if saves == [] then 0
    else
      var n := |saves| - 1;
      SavesOn(saves[..n], p) + (if saves[n].0 == p then 1 else 0)
  }

  /** The records of the saves in `saves` made on page `p`, in order. */
  function RecordsOn(saves: seq<(nat, Record)>, p: nat): (rs: seq<Record>)
    ensures |rs| == SavesOn(saves, p)
    decreases |saves|
  {
    if saves == [] then []
    else
      var n := |saves| - 1;
      RecordsOn(saves[..n], p) + (if saves[n].0 == p then [saves[n].1] else [])
  }

  /** After any series of successful saves, each page holds what it held before,
      first and unchanged, followed by the records saved on it, in the order of the
      saves; so its list grows by one per save made on it. */
  lemma {:induction false} AppendedAllContents(annotations: map<nat, seq<Record>>, saves: seq<(nat, Record)>, p: nat)
    ensures OnPage(AppendedAll(annotations, saves), p) == OnPage(annotations, p) + RecordsOn(saves, p)
    ensures |OnPage(AppendedAll(annotations, saves), p)| == |OnPage(annotations, p)| + SavesOn(saves, p)
    decreases |saves|
  {
    if saves != [] {
      var n := |saves| - 1;
      AppendedAllContents(annotations, saves[..n], p);
    }
  }

  /** A page index within a document of `pageCount` pages; a document with no
      pages keeps the index at 0. */
  predicate PageIndexOk(p: nat, pageCount: nat) {
    p == 0 || p < pageCount
  }

  /** Once set, the username is a stripped, non-blank string. */
  predicate UsernameOk(username: string) {
    username != [] ==> !IsBlank(username) && Strip(username) == username
  }

  /** Every page's annotations were saved on that page, and their ids have history. */
  ghost predicate AnnotationsFiled(annotations: map<nat, seq<Record>>, history: map<string, seq<Record>>,
                                   pageCount: nat)
  {
    (forall p :: p in annotations ==> PageIndexOk(p, pageCount))
    && (forall p, k :: p in annotations && 0 <= k < |annotations[p]| ==>
          IsAnnotationOf(annotations[p][k], p) && annotations[p][k]["id"].s in history)
  }

  /** Every revision list holds exactly the creation snapshot, which carries its id. */
  ghost predicate HistorySeeded(history: map<string, seq<Record>>) {
    forall id :: id in history ==>
      |history[id]| == 1 && HasType(history[id][0], "annotation")
      && "id" in history[id][0] && history[id][0]["id"] == Str(id)
  }

  /** Every record of `log` has type `t`. */
  ghost predicate LogOf(log: seq<Record>, t: string) {
    forall k :: 0 <= k < |log| ==> HasType(log[k], t)
  }

  /** Saving record `r` with id `id` on page `p` keeps the store filed and the
      history seeded. */
  lemma SaveKeepsStore(annotations: map<nat, seq<Record>>, history: map<string, seq<Record>>,
                       pageCount: nat, p: nat, id: string, r: Record)
    requires AnnotationsFiled(annotations, history, pageCount) && HistorySeeded(history)
    requires PageIndexOk(p, pageCount) && IsAnnotationOf(r, p) && r["id"] == Str(id)
    ensures AnnotationsFiled(Appended(annotations, p, r), history[id := [r]], pageCount)
    ensures HistorySeeded(history[id := [r]])
  {
    var a: map<nat, seq<Record>> := Appended(annotations, p, r);
    var h: map<string, seq<Record>> := history[id := [r]];
    forall q, k | q in a && 0 <= k < |a[q]|
      ensures IsAnnotationOf(a[q][k], q) && a[q][k]["id"].s in h
    {
      if q == p && k == |a[q]| - 1 {
        assert a[q][k] == r;
      } else {
        assert q in annotations && a[q][k] == annotations[q][k];
      }
    }
  }

  /** Appending a record of type `t` keeps a log of `t` records. */
  lemma LogAppend(log: seq<Record>, t: string, r: Record)
    requires LogOf(log, t) && HasType(r, t)
    ensures LogOf(log + [r], t)
  {
    assert forall k :: 0 <= k < |log| ==> (log + [r])[k] == log[k];
  }

  class Session {
    /** `len(pdf_pages)`, fixed for the session. */
    const pageCount: nat
    var username: string
    var currentPage: nat
    /** Local annotations: page index to the records saved on it, oldest first. */
    var annotations: map<nat, seq<Record>>
    /** Annotation id to its revisions, oldest first. */
    var revisionHistory: map<string, seq<Record>>
    /** Annotations received from the relay, in arrival order. */
    var collabAnnotations: seq<Record>
    /** Chat messages, received or sent, in order. */
    var collabChat: seq<Record>
    var listenerStarted: bool

    /** The session invariant. */
    ghost predicate Valid()
      reads this
    {
      PageIndexOk(currentPage, pageCount)
      && UsernameOk(username)
      && AnnotationsFiled(annotations, revisionHistory, pageCount)
      && HistorySeeded(revisionHistory)
      && LogOf(collabAnnotations, "annotation")
      && LogOf(collabChat, "chat")
    }

    /** A fresh session for a document of `pageCount` pages. */
    constructor (pageCount: nat)
      ensures Valid()
      ensures this.pageCount == pageCount && username == [] && currentPage == 0
      ensures annotations == map[] && revisionHistory == map[]
      ensures collabAnnotations == [] && collabChat == [] && !listenerStarted
    {
      this.pageCount := pageCount;
      username := [];
      currentPage := 0;
      annotations := map[];
      revisionHistory := map[];
      collabAnnotations := [];
      collabChat := [];
      listenerStarted := false;
    }

    /** Set Username: the form is shown only while no name is set; a blank entry is
        refused, any other is stored stripped. */
    method SetUsername(input: string) returns (outcome: NameOutcome)
      requires Valid()
      modifies this`username
      ensures Valid()
      ensures old(username) != [] ==> outcome == FormHidden && username == old(username)
      ensures old(username) == [] && IsBlank(input) ==> outcome == InvalidName && username == []
      ensures old(username) == [] && !IsBlank(input) ==> outcome == NameSet && username == Strip(input)
    {
      if username != [] {
        return FormHidden;
      }
      if IsBlank(input) {
        return InvalidName;
      }
      StripIdempotent(input);
      username := Strip(input);
      outcome := NameSet;
    }

    /** Previous Page: one page back, never below the first page. */
    method PreviousPage()
      requires Valid()
      modifies this`currentPage
      ensures Valid()
      ensures old(currentPage) > 0 ==> currentPage == old(currentPage) - 1
      ensures old(currentPage) == 0 ==> currentPage == 0
    {
      if currentPage > 0 {
        currentPage := currentPage - 1;
      }
    }

    /** Next Page: one page on, never past the last page. */
    method NextPage()
      requires Valid()
      modifies this`currentPage
      ensures Valid()
      ensures old(currentPage) < pageCount - 1 ==> currentPage == old(currentPage) + 1
      ensures old(currentPage) >= pageCount - 1 ==> currentPage == old(currentPage)
    {
      if currentPage < pageCount - 1 {
        currentPage := currentPage + 1;
      }
    }

    /** Save Annotation on the current page. Both inputs must be non-blank. The
        record is appended locally and its history seeded before the publish, and a
        failed publish rolls nothing back. `id` and `timestamp` stand for the values
        the clock gives; an `id` already in use has its history replaced. */
    method SaveAnnotation(selected: string, note: string, id: string, timestamp: real,
                          publishRaises: bool) returns (outcome: SaveOutcome)
      requires Valid()
      modifies this`annotations, this`revisionHistory
      ensures Valid()
      ensures IsBlank(selected) || IsBlank(note) ==>
        outcome == MissingInput && annotations == old(annotations)
        && revisionHistory == old(revisionHistory)
      ensures !IsBlank(selected) && !IsBlank(note) ==>
        var r := AnnotationRecord(id, currentPage, selected, note, timestamp, username);
        annotations == Appended(old(annotations), currentPage, r)
        && revisionHistory == old(revisionHistory)[id := [r]]
        && outcome == Saved(if publishRaises then PublishFailed else Delivered)
    {
      if IsBlank(selected) || IsBlank(note) {
        return MissingInput;
      }
      var page := currentPage;
      var r := AnnotationRecord(id, page, selected, note, timestamp, username);
      SaveKeepsStore(annotations, revisionHistory, pageCount, page, id, r);
      annotations := Appended(annotations, page, r);
      revisionHistory := revisionHistory[id := [r]];
      outcome := Saved(if publishRaises then PublishFailed else Delivered);
    }

    /** `on_message`: an annotation goes to the remote-annotation log, a chat
        message to the chat log; any other type is ignored, and a message that does
        not decode to an object is reported and dropped. */
    method Receive(message: Incoming) returns (delivery: Delivery)
      requires Valid()
      modifies this`collabAnnotations, this`collabChat
      ensures Valid()
      ensures message.Object? && HasType(message.fields, "annotation") ==>
        delivery == StoredAnnotation && collabAnnotations == old(collabAnnotations) + [message.fields]
        && collabChat == old(collabChat)
      ensures message.Object? && HasType(message.fields, "chat") ==>
        delivery == StoredChat && collabChat == old(collabChat) + [message.fields]
        && collabAnnotations == old(collabAnnotations)
      ensures message.Object? && !HasType(message.fields, "annotation") && !HasType(message.fields, "chat") ==>
        delivery == Ignored && collabAnnotations == old(collabAnnotations) && collabChat == old(collabChat)
      ensures !message.Object? ==>
        delivery == Reported && collabAnnotations == old(collabAnnotations) && collabChat == old(collabChat)
    {
      if !message.Object? {
        return Reported;
      }
      var data := message.fields;
      if HasType(data, "annotation") {
        LogAppend(collabAnnotations, "annotation", data);
        collabAnnotations := collabAnnotations + [data];
        delivery := StoredAnnotation;
      } else if HasType(data, "chat") {
        LogAppend(collabChat, "chat", data);
        collabChat := collabChat + [data];
        delivery := StoredChat;
      } else {
        delivery := Ignored;
      }
    }

    /** Send Message: a non-blank message is appended, stripped, to the chat log
        before the publish, and a failed publish rolls nothing back. A blank message
        stops at the undefined name before anything changes. */
    method SendMessage(message: string, timestamp: real, publishRaises: bool) returns (outcome: SendOutcome)
      requires Valid()
      modifies this`collabChat
      ensures Valid()
      ensures IsBlank(message) ==> outcome == ChatDataUndefined && collabChat == old(collabChat)
      ensures !IsBlank(message) ==>
        collabChat == old(collabChat) + [ChatRecord(message, timestamp, username)]
        && outcome == Sent(if publishRaises then PublishFailed else Delivered)
    {
      if IsBlank(message) {
        return ChatDataUndefined;
      }
      LogAppend(collabChat, "chat", ChatRecord(message, timestamp, username));
      collabChat := collabChat + [ChatRecord(message, timestamp, username)];
      outcome := Sent(if publishRaises then PublishFailed else Delivered);
    }

    /** `start_ws_client`: the listener is started the first time only. */
    method StartListener() returns (started: bool)
      requires Valid()
      modifies this`listenerStarted
      ensures Valid()
      ensures started == !old(listenerStarted) && listenerStarted
    {
      started := !listenerStarted;
      listenerStarted := true;
    }
  }
}
