/**
 * The `xsd:QName` property of the JAXB skeleton: a qualified name written
 * as the text of an element, `local` or `prefix:local` (section 4 of
 * Namespaces in XML 1.0), and read back by splitting that text at its first
 * colon and resolving the prefix in the reader's namespace context.
 *
 * The stream writer is represented by the sequence of calls made on it and
 * the writer's namespace bindings (namespace to prefix); the stream reader
 * by a sequence of events, a cursor into it and the namespace context in
 * scope at the element text (prefix to namespace).
 */
module QNameCodec {
  import opened Wrappers
  import opened JavaStrings

  /** `javax.xml.namespace.QName`; a missing namespace or prefix is the empty text. */
  datatype QName = QName(namespace: string, local: string, prefix: string)

  /** `QName.equals`: the namespace and the local part decide, the prefix does not. */
  predicate SameName(a: QName, b: QName)
  {
    a.namespace == b.namespace && a.local == b.local
  }

  /** True when the text holds no colon. */
  predicate ColonFree(s: string)
  {
    forall j :: 0 <= j < |s| ==> s[j] != ':'
  }

  // Writing.

  /** The calls that `write` makes on the stream writer. */
  datatype WriterCall =
    | WriteStart(name: QName)
    | WriteNamespace(prefix: string, uri: string)
    | WriteCharacters(text: string)
    | WriteEnd(name: QName)

  /** The element text of a name: the local part alone without a prefix, `prefix:local` with one. */
  function Render(q: QName): string
  {
    if q.prefix == [] then q.local else q.prefix + ":" + q.local
  }

  /** `out.getPrefix(namespace)`: the prefix the writer has bound to a namespace. */
  function BoundPrefix(bound: map<string, string>, uri: string): Option<string>
  {
    if uri in bound then Some(bound[uri]) else None
  }

  /**
   * The declaration `write` makes as written: for a name with a namespace
   * and a prefix it looks up the writer's prefix for the namespace but then
   * compares the name's prefix with itself, so it declares nothing.
   */
  function DeclarationAsWritten(name: QName, bound: map<string, string>): seq<WriterCall>
  {
    var namespace := name.namespace;
    var prefix := name.prefix;
    if namespace != [] && prefix != [] then
      if prefix != name.prefix then [WriteNamespace(name.prefix, name.namespace)] else []
    else []
  }

  /**
   * The declaration the guard at the namespace declaration evidently
   * intends: a name with a namespace and a prefix is declared unless the
   * writer already binds that namespace to that prefix.
   */
  function Declaration(name: QName, bound: map<string, string>): seq<WriterCall>
  {
    if name.namespace != [] && name.prefix != [] && BoundPrefix(bound, name.namespace) != Some(name.prefix) then
      [WriteNamespace(name.prefix, name.namespace)]
    else []
  }

  /** The calls of `write` for a value and a declaration rule. */
  function Calls(qname: QName, decl: seq<WriterCall>, obj: Option<QName>): seq<WriterCall>
  {
    match obj
    case None => [WriteStart(qname), WriteEnd(qname)]
    case Some(name) => [WriteStart(qname)] + decl + [WriteCharacters(Render(name)), WriteEnd(qname)]
  }

  /** `write` as written. */
  function WriteAsWritten(obj: Option<QName>, qname: QName, bound: map<string, string>): seq<WriterCall>
  {
    Calls(qname, if obj.Some? then DeclarationAsWritten(obj.value, bound) else [], obj)
  }

  /** `write` with the intended declaration check. */
  function WriteCorrected(obj: Option<QName>, qname: QName, bound: map<string, string>): seq<WriterCall>
  {
    Calls(qname, if obj.Some? then Declaration(obj.value, bound) else [], obj)
  }

  /** A stream writer: the calls made on it so far and its namespace bindings. */
  class StreamWriter {
    var calls: seq<WriterCall>
    const bound: map<string, string>

    constructor (bound: map<string, string>)
      ensures calls == [] && this.bound == bound
    {
      calls := [];
      this.bound := bound;
    }

    method Emit(c: WriterCall)
      modifies this
      ensures calls == old(calls) + [c]
    {
      calls := calls + [c];
    }
  }

  /** `write(m, out, obj, qname)`, with the intended declaration check. */
  method Write(out: StreamWriter, obj: Option<QName>, qname: QName)
    modifies out
    ensures out.calls == old(out.calls) + WriteCorrected(obj, qname, out.bound)
  {
    out.Emit(WriteStart(qname));
    if obj.Some? {
      var name := obj.value;
      if name.namespace != [] && name.prefix != [] {
        var declaredPrefix := BoundPrefix(out.bound, name.namespace);
        if declaredPrefix != Some(name.prefix) {
          out.Emit(WriteNamespace(name.prefix, name.namespace));
        }
      }
      out.Emit(WriteCharacters(Render(name)));
    }
    out.Emit(WriteEnd(qname));
  }

  // Reading.

  /** The reader's events; past the last event the reader sits at the end of the document. */
  datatype XmlEvent = StartElement(name: QName) | Characters(text: string) | EndElement(name: QName) | Other | EndDocument

  datatype ReadError =
    | UnexpectedStart     // not at a start element of the expected name
    | NoSuchEvent         // `next()` at the end of the document
    | UnboundPrefix(prefix: string)
    | EmptyLocalName
    | UnexpectedEnd       // the closing element has another name

  /** `getEventType()` at a cursor position. */
  function EventAt(evs: seq<XmlEvent>, i: nat): XmlEvent
  {
    if i < |evs| then evs[i] else EndDocument
  }

  /** What the reader sees of one writer call: declarations go into the context, not the events. */
  function EventsOf(c: WriterCall): seq<XmlEvent>
  {
    match c
    case WriteStart(n) => [StartElement(n)]
    case WriteNamespace(_, _) => []
    case WriteCharacters(t) => [Characters(t)]
    case WriteEnd(n) => [EndElement(n)]
  }

  function ToEvents(calls: seq<WriterCall>): seq<XmlEvent>
    decreases |calls|
  {
    if calls == [] then [] else EventsOf(calls[0]) + ToEvents(calls[1..])
  }

  /** The prefix bindings that the calls declare; a later declaration wins. */
  function Declared(calls: seq<WriterCall>): map<string, string>
    decreases |calls|
  {
    if calls == [] then map[]
    else (if calls[0].WriteNamespace? then map[calls[0].prefix := calls[0].uri] else map[]) + Declared(calls[1..])
  }

  /**
   * The element text as a name: without a colon the whole text is the local
   * part; otherwise the text before the first colon is a prefix that must
   * be bound, and the text after it a local part that must not be empty.
   */
  function ParseText(text: string, ns: map<string, string>): Result<QName, ReadError>
  {
    var colon := IndexOf(text, ':');
    if colon < 0 then Ok(QName([], text, []))
    else
      var prefix := text[..colon];
      if prefix !in ns then Err(UnboundPrefix(prefix))
      else
        var localName := text[colon + 1..];
        if localName == [] then Err(EmptyLocalName)
        else Ok(QName(ns[prefix], localName, prefix))
  }

  /** The loop `while (getEventType() != END_ELEMENT) next()`: the cursor of the first end element from `pos`. */
  function SkipToEnd(evs: seq<XmlEvent>, pos: nat): (r: Result<nat, ReadError>)
    ensures r.Ok? ==> pos <= r.value < |evs| && evs[r.value].EndElement?
    ensures r.Ok? ==> forall j :: pos <= j < r.value ==> !evs[j].EndElement?
    ensures r.Err? ==> r.error == NoSuchEvent && forall j :: pos <= j < |evs| ==> !evs[j].EndElement?
    decreases |evs| - pos
  {
    if EventAt(evs, pos).EndElement? then Ok(pos)
    else if pos < |evs| then SkipToEnd(evs, pos + 1)
    else Err(NoSuchEvent)
  }

  /**
   * `read(u, in, qname)` from cursor `pos`: the result and the cursor after
   * it.  The start element must carry the expected name; the text event
   * after it, if any, is parsed; the reader then skips to the next end
   * element, which must carry the expected name too, and steps past it.
   */
  function ReadFrom(evs: seq<XmlEvent>, pos: nat, ns: map<string, string>, qname: QName): (Result<Option<QName>, ReadError>, nat)
  {
    var start := EventAt(evs, pos);
    if !(start.StartElement? && SameName(start.name, qname)) then (Err(UnexpectedStart), pos)
    else
      var p := pos + 1;
      var text := EventAt(evs, p);
      var parsed := if text.Characters? then ParseText(text.text, ns) else Ok(QName([], [], []));
      if parsed.Err? then (Err(parsed.error), p)
      else
        var ret := if text.Characters? then Some(parsed.value) else None;
        match SkipToEnd(evs, p)
        case Err(e) => (Err(e), |evs|)
        case Ok(e) => if !SameName(evs[e].name, qname) then (Err(UnexpectedEnd), e) else (Ok(ret), e + 1)
  }

  /** A stream reader: its events, the namespace context at the element text, and a cursor. */
  class EventReader {
    const events: seq<XmlEvent>
    const namespaces: map<string, string>
    var pos: nat

    constructor (events: seq<XmlEvent>, namespaces: map<string, string>)
      ensures this.events == events && this.namespaces == namespaces && pos == 0
    {
      this.events := events;
      this.namespaces := namespaces;
      pos := 0;
    }

    /** `getEventType()`. */
    function EventType(): XmlEvent
      reads this
    {
      EventAt(events, pos)
    }

    /** `next()`: steps to the next event; there is none past the end of the document. */
    method Next() returns (ok: bool)
      modifies this
      ensures ok <==> old(pos) < |events|
      ensures pos == if ok then old(pos) + 1 else old(pos)
    {
      if pos < |events| {
        pos := pos + 1;
        return true;
      }
      return false;
    }
  }

  /** `read(u, in, qname)`. */
  method Read(r: EventReader, qname: QName) returns (res: Result<Option<QName>, ReadError>)
    modifies r
    ensures (res, r.pos) == ReadFrom(r.events, old(r.pos), r.namespaces, qname)
  {
    var start := r.EventType();
    if !(start.StartElement? && SameName(start.name, qname)) {
      return Err(UnexpectedStart);
    }
    var moved := r.Next();
    var ret: Option<QName> := None;
    var text := r.EventType();
    if text.Characters? {
      var parsed := ParseText(text.text, r.namespaces);
      if parsed.Err? {
        return Err(parsed.error);
      }
      ret := Some(parsed.value);
    }
    ghost var p := r.pos;
    while !r.EventType().EndElement?
      invariant p <= r.pos <= |r.events|
      invariant SkipToEnd(r.events, r.pos) == SkipToEnd(r.events, p)
      decreases |r.events| - r.pos
    {
      moved := r.Next();
      if !moved {
        return Err(NoSuchEvent);
      }
    }
    if !SameName(r.EventType().name, qname) {
      return Err(UnexpectedEnd);
    }
    moved := r.Next();
    return Ok(ret);
  }

  // Properties of the text form.

  /** Text without a colon reads as a name with that whole text as its local part. */
  lemma ParseUnqualified(text: string, ns: map<string, string>)
    requires ColonFree(text)
    ensures ParseText(text, ns) == Ok(QName([], text, []))
  {
  }

  /**
   * Text whose first colon is at `p` names the prefix before it: an unbound
   * prefix and an empty local part are errors, and otherwise the name has
   * the prefix's namespace and the text after the colon as its local part.
   */
  lemma ParseQualified(text: string, ns: map<string, string>, p: nat)
    requires p < |text| && text[p] == ':' && ColonFree(text[..p])
    ensures text[..p] !in ns ==> ParseText(text, ns) == Err(UnboundPrefix(text[..p]))
    ensures text[..p] in ns && p + 1 == |text| ==> ParseText(text, ns) == Err(EmptyLocalName)
    ensures text[..p] in ns && p + 1 < |text| ==>
      ParseText(text, ns) == Ok(QName(ns[text[..p]], text[p + 1..], text[..p]))
  {
    assert forall j :: 0 <= j < p ==> text[j] == text[..p][j];
    assert IndexOf(text, ':') == p;
  }

  /** A prefixed name's text splits at the colon that follows the prefix. */
  lemma RenderSplits(q: QName)
    requires q.prefix != [] && ColonFree(q.prefix)
    ensures var t := Render(q);
      |q.prefix| < |t| && t[|q.prefix|] == ':' && t[..|q.prefix|] == q.prefix && t[|q.prefix| + 1..] == q.local
  {
  }

  /**
   * A successful read consumed a start element of the expected name, then
   * everything up to and including the first end element, which has the
   * expected name; the value is the parsed text event, or null without one.
   */
  lemma ReadSucceeds(evs: seq<XmlEvent>, pos: nat, ns: map<string, string>, qname: QName)
    requires ReadFrom(evs, pos, ns, qname).0.Ok?
    ensures pos < |evs| && evs[pos].StartElement? && SameName(evs[pos].name, qname)
    ensures var e := ReadFrom(evs, pos, ns, qname).1 - 1;
      && pos < e < |evs| && evs[e].EndElement? && SameName(evs[e].name, qname)
      && (forall j :: pos < j < e ==> !evs[j].EndElement?)
    ensures var v := ReadFrom(evs, pos, ns, qname).0.value;
      if EventAt(evs, pos + 1).Characters? then v == Some(ParseText(EventAt(evs, pos + 1).text, ns).value)
      else v == None
  {
  }

  /** A read that is not at a start element of the expected name fails and does not move. */
  lemma ReadRejectsStart(evs: seq<XmlEvent>, pos: nat, ns: map<string, string>, qname: QName)
    requires !(EventAt(evs, pos).StartElement? && SameName(EventAt(evs, pos).name, qname))
    ensures ReadFrom(evs, pos, ns, qname) == (Err(UnexpectedStart), pos)
  {
  }

  // Writing, then reading.

  /** The events and the declarations of a four-call write. */
  lemma EventsOfWrite(qname: QName, decl: seq<WriterCall>, text: string)
    requires |decl| <= 1 && (decl != [] ==> decl[0].WriteNamespace?)
    ensures var calls := [WriteStart(qname)] + decl + [WriteCharacters(text), WriteEnd(qname)];
      && ToEvents(calls) == [StartElement(qname), Characters(text), EndElement(qname)]
      && Declared(calls) == (if decl == [] then map[] else map[decl[0].prefix := decl[0].uri])
  {
    var calls := [WriteStart(qname)] + decl + [WriteCharacters(text), WriteEnd(qname)];
    var end := [WriteEnd(qname)];
    var tail := [WriteCharacters(text)] + end;
    assert end[1..] == [];
    assert ToEvents(end) == [EndElement(qname)] && Declared(end) == map[];
    assert tail[1..] == end;
    assert ToEvents(tail) == [Characters(text)] + ToEvents(end) && Declared(tail) == map[];
    assert calls[1..] == decl + tail;
    if decl != [] {
      assert (decl + tail)[1..] == tail;
    } else {
      assert decl + tail == tail;
    }
  }

  /** Reading an element of the expected name that holds one text event yields the parsed text. */
  lemma ReadElement(qname: QName, text: string, ns: map<string, string>)
    ensures ReadFrom([StartElement(qname), Characters(text), EndElement(qname)], 0, ns, qname) ==
      match ParseText(text, ns)
      case Ok(v) => (Ok(Some(v)), 3)
      case Err(e) => (Err(e), 1)
  {
    var evs := [StartElement(qname), Characters(text), EndElement(qname)];
    assert SkipToEnd(evs, 1) == Ok(2);
  }

  /** Everything the writer binds is visible to the reader under the same prefix. */
  predicate Visible(bound: map<string, string>, rns: map<string, string>)
  {
    forall u :: u in bound ==> bound[u] in rns && rns[bound[u]] == u
  }

  /**
   * Round trip: a name with a namespace, a colon-free prefix and a non-empty
   * local part, written with the intended declaration and read in a context
   * that sees the writer's bindings and the written declarations, reads
   * back as the same namespace, local part and prefix.
   */
  lemma RoundTrip(q: QName, qname: QName, bound: map<string, string>, rns: map<string, string>)
    requires q.namespace != [] && q.prefix != [] && ColonFree(q.prefix) && q.local != []
    requires Visible(bound, rns)
    ensures var calls := WriteCorrected(Some(q), qname, bound);
      ReadFrom(ToEvents(calls), 0, rns + Declared(calls), qname) == (Ok(Some(q)), 3)
  {
    var decl := Declaration(q, bound);
    var calls := WriteCorrected(Some(q), qname, bound);
    EventsOfWrite(qname, decl, Render(q));
    var ns := rns + Declared(calls);
    RenderSplits(q);
    ParseQualified(Render(q), ns, |q.prefix|);
    assert q.prefix in ns && ns[q.prefix] == q.namespace;
    ReadElement(qname, Render(q), ns);
  }

  /** A name without a prefix is written as its local part alone and reads back without its namespace. */
  lemma RoundTripUnprefixed(q: QName, qname: QName, bound: map<string, string>, rns: map<string, string>)
    requires q.prefix == [] && ColonFree(q.local)
    ensures var calls := WriteCorrected(Some(q), qname, bound);
      ReadFrom(ToEvents(calls), 0, rns + Declared(calls), qname) == (Ok(Some(QName([], q.local, []))), 3)
  {
    var calls := WriteCorrected(Some(q), qname, bound);
    EventsOfWrite(qname, [], Render(q));
    ReadElement(qname, Render(q), rns + Declared(calls));
  }

  /** A null value is written as an empty element and reads back as null. */
  lemma RoundTripNull(qname: QName, bound: map<string, string>, rns: map<string, string>)
    ensures var calls := WriteCorrected(None, qname, bound);
      ReadFrom(ToEvents(calls), 0, rns + Declared(calls), qname) == (Ok(None), 2)
  {
    var calls := WriteCorrected(None, qname, bound);
    var end := [WriteEnd(qname)];
    assert calls[1..] == end;
    assert end[1..] == [];
    assert ToEvents(end) == [EndElement(qname)];
    var evs := ToEvents(calls);
    assert evs == [StartElement(qname)] + ToEvents(end);
    assert SkipToEnd(evs, 1) == Ok(1);
  }

  /** The intended check declares exactly the namespaces of prefixed names that the writer does not bind to that prefix. */
  lemma CorrectedDeclares(q: QName, qname: QName, bound: map<string, string>)
    ensures var calls := WriteCorrected(Some(q), qname, bound);
      (Declared(calls) == map[q.prefix := q.namespace]) <==>
        q.namespace != [] && q.prefix != [] && BoundPrefix(bound, q.namespace) != Some(q.prefix)
  {
    var decl := Declaration(q, bound);
    EventsOfWrite(qname, decl, Render(q));
    if decl == [] {
      var none: map<string, string> := map[];
      assert q.prefix !in none;
    }
  }

  // The declaration check as written.

  /** As written, `write` never declares a namespace, whatever the name and the writer's bindings. */
  lemma AsWrittenNeverDeclares(obj: Option<QName>, qname: QName, bound: map<string, string>)
    ensures forall i :: 0 <= i < |WriteAsWritten(obj, qname, bound)| ==> !WriteAsWritten(obj, qname, bound)[i].WriteNamespace?
  {
  }

  /**
   * Read where the reader already binds the name's prefix to its namespace,
   * what `write` as written produces does read back as the same name.
   */
  lemma AsWrittenRoundTrip(q: QName, qname: QName, bound: map<string, string>, rns: map<string, string>)
    requires q.namespace != [] && q.prefix != [] && ColonFree(q.prefix) && q.local != []
    requires q.prefix in rns && rns[q.prefix] == q.namespace
    ensures var calls := WriteAsWritten(Some(q), qname, bound);
      ReadFrom(ToEvents(calls), 0, rns + Declared(calls), qname) == (Ok(Some(q)), 3)
  {
    var calls := WriteAsWritten(Some(q), qname, bound);
    EventsOfWrite(qname, [], Render(q));
    var ns := rns + Declared(calls);
    RenderSplits(q);
    ParseQualified(Render(q), ns, |q.prefix|);
    ReadElement(qname, Render(q), ns);
  }

  /**
   * So a prefixed name whose namespace the writer has not bound cannot be
   * read back from what was written: `{urn:a}x` with prefix `a`, written by
   * a writer without bindings and read in an empty context.
   */
  lemma AsWrittenLosesBinding()
    ensures var q := QName("urn:a", "x", "a");
      var qname := QName([], "v", []);
      var calls := WriteAsWritten(Some(q), qname, map[]);
      && ReadFrom(ToEvents(calls), 0, map[] + Declared(calls), qname) == (Err(UnboundPrefix("a")), 1)
      && ReadFrom(ToEvents(WriteCorrected(Some(q), qname, map[])), 0,
                  map[] + Declared(WriteCorrected(Some(q), qname, map[])), qname) == (Ok(Some(q)), 3)
  {
    var q := QName("urn:a", "x", "a");
    var qname := QName([], "v", []);
    EventsOfWrite(qname, [], Render(q));
    RenderSplits(q);
    ParseQualified(Render(q), map[], 1);
    ReadElement(qname, Render(q), map[]);
    RoundTrip(q, qname, map[], map[]);
  }
}
