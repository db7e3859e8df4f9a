/** One log event: its canonical content, its hash and its on-disk form. */
module Events {
  import opened Text

  /** Nanoseconds in a second; timestamps count nanoseconds on the UTC line. */
  const SECOND := 1_000_000_000

  datatype Link = Link(rel: string, href: string)

  datatype Event = Event(
    num: int, kind: string, ts: int, actor: string, ticket: string, attempt: string,
    refs: seq<int>, artefacts: seq<string>, links: seq<Link>, outcome: string, rung: string, commit: string,
    environment: string, supersedes: seq<int>, tags: seq<string>, wokenChild: string, wokenSeq: int,
    prev: string, hash: string, body: string)

  /** What is hashed: every field but the hash, whole seconds, and the body as it is stored. */
  datatype Canonical = Canonical(
    num: int, kind: string, seconds: int, actor: string, ticket: string, attempt: string,
    refs: seq<int>, artefacts: seq<string>, links: seq<Link>, outcome: string, rung: string, commit: string,
    environment: string, supersedes: seq<int>, tags: seq<string>, wokenChild: string, wokenSeq: int,
    prev: string, body: string)

  /** The hash function over canonical content, of which nothing is assumed here. */
  type Digest = Canonical -> string

  function Canon(e: Event): Canonical
  {
    Canonical(e.num, e.kind, e.ts / SECOND, e.actor, e.ticket, e.attempt, e.refs, e.artefacts, e.links,
              e.outcome, e.rung, e.commit, e.environment, e.supersedes, e.tags, e.wokenChild, e.wokenSeq,
              e.prev, ChopNewlines(e.body))
  }

  function ComputeHash(h: Digest, e: Event): string
  {
    h(Canon(e))
  }

  /** An event as storage keeps it: whole seconds, no trailing line feeds. */
  function Normal(e: Event): Event
  {
    e.(ts := e.ts / SECOND * SECOND, body := ChopNewlines(e.body))
  }

  /** The two events are stored alike but for their hashes: in whole seconds and without trailing line feeds. */
  predicate SameStored(a: Event, b: Event)
  {
    && a.num == b.num && a.kind == b.kind && a.ts / SECOND == b.ts / SECOND
    && a.actor == b.actor && a.ticket == b.ticket && a.attempt == b.attempt
    && a.refs == b.refs && a.artefacts == b.artefacts && a.links == b.links
    && a.outcome == b.outcome && a.rung == b.rung && a.commit == b.commit && a.environment == b.environment
    && a.supersedes == b.supersedes && a.tags == b.tags
    && a.wokenChild == b.wokenChild && a.wokenSeq == b.wokenSeq
    && a.prev == b.prev && ChopNewlines(a.body) == ChopNewlines(b.body)
  }

  /** The hash covers every field but itself, and nothing that is not stored. */
  lemma CanonExactly(a: Event, b: Event)
    ensures Canon(a) == Canon(b) <==> SameStored(a, b)
    ensures Normal(a).(hash := "") == Normal(b).(hash := "") <==> SameStored(a, b)
    ensures Normal(a).hash == a.hash
  {
    assert a.ts == a.ts / SECOND * SECOND + a.ts % SECOND && b.ts == b.ts / SECOND * SECOND + b.ts % SECOND;
  }

  lemma NormalHashesAlike(e: Event)
    ensures Canon(Normal(e)) == Canon(e)
  {
    ChopTwice(e.body);
  }

  lemma ChopTwice(s: string)
    ensures ChopNewlines(ChopNewlines(s)) == ChopNewlines(s)
  {
  }

  // ----- The file form -----

  /** The front-matter codec. The front matter of e is e in whole seconds without its body. */
  datatype Yaml = Yaml(encode: Event -> string, decode: string -> Option<Event>)

  function Front(e: Event): Event
  {
    Normal(e).(body := "")
  }

  const FENCE := "---\n"
  const CLOSER := "\n---\n"

  /** What the codec has to provide for one event's front matter. */
  ghost predicate Encodes(y: Yaml, e: Event)
  {
    var text := y.encode(Front(e));
    && text != "" && text[|text| - 1] == '\n'
    && (forall i: nat :: !OccursAt(text, CLOSER, i))
    && y.decode(text[..|text| - 1]) == Some(Front(e))
  }

  datatype Parsed = Ok(event: Event) | MissingOpener | MissingCloser | BadFrontmatter

  function Marshal(y: Yaml, e: Event): string
  {
    var body := ChopNewlines(e.body);
    FENCE + y.encode(Front(e)) + FENCE + (if body == "" then "" else body + "\n")
  }

  /** The front matter and the body of a file after its opening fence. */
  function Cut(rest: string): Option<(string, string)>
  {
    match Index(rest, CLOSER)
    case Some(end) => Some((rest[..end], ChopNewlines(rest[end + |CLOSER|..])))
    case None =>
      if |rest| >= 4 && rest[|rest| - 4..] == "\n---" then Some((rest[..|rest| - 4], "")) else None
  }

  function Parse(y: Yaml, data: string): Parsed
  {
    if !(FENCE <= data) then MissingOpener
    else
      match Cut(data[|FENCE|..])
      case Some(parts) => ParseFront(y, parts.0, parts.1)
      case None => MissingCloser
  }

  function ParseFront(y: Yaml, front: string, body: string): Parsed
  {
    match y.decode(front)
    case Some(e) => Ok(e.(body := body))
    case None => BadFrontmatter
  }

  lemma {:induction false} ChopAppended(body: string)
    ensures ChopNewlines(body + "\n") == ChopNewlines(body)
  {
    assert (body + "\n")[..|body|] == body;
  }

  lemma CloserSpelled(s: string, i: nat)
    ensures OccursAt(s, CLOSER, i) <==>
      i + 5 <= |s| && s[i] == '\n' && s[i + 1] == '-' && s[i + 2] == '-' && s[i + 3] == '-' && s[i + 4] == '\n'
  {
    if i + 5 <= |s| {
      assert s[i..i + 5] == [s[i], s[i + 1], s[i + 2], s[i + 3], s[i + 4]];
      assert CLOSER == ['\n', '-', '-', '-', '\n'];
    }
  }

  lemma OccursInHead(head: string, tail: string, pattern: string, i: nat)
    requires i + |pattern| <= |head|
    ensures OccursAt(head + tail, pattern, i) == OccursAt(head, pattern, i)
  {
    assert (head + tail)[i..i + |pattern|] == head[i..i + |pattern|];
  }

  /** The closing fence of a written file is found at the end of its front matter, whatever follows. */
  lemma CloserFound(text: string, tail: string)
    requires text != "" && text[|text| - 1] == '\n' && forall i: nat :: !OccursAt(text, CLOSER, i)
    ensures Index(text + FENCE + tail, CLOSER) == Some(|text| - 1)
  {
    var s, n := text + FENCE + tail, |text|;
    assert s == text + (FENCE + tail) && s[n - 1] == '\n';
    assert s[n] == '-' && s[n + 1] == '-' && s[n + 2] == '-' && s[n + 3] == '\n';
    CloserSpelled(s, n - 1);
    forall j: nat | j < n - 1
      ensures !OccursAt(s, CLOSER, j)
    {
      CloserSpelled(s, j);
      if j + 5 <= n { OccursInHead(text, FENCE + tail, CLOSER, j); }
    }
    IndexUnique(s, CLOSER, n - 1);
  }

  lemma ParseFound(y: Yaml, text: string, tail: string)
    requires text != "" && text[|text| - 1] == '\n' && forall i: nat :: !OccursAt(text, CLOSER, i)
    ensures Parse(y, FENCE + text + FENCE + tail) == ParseFront(y, text[..|text| - 1], ChopNewlines(tail))
  {
    var data := FENCE + text + FENCE + tail;
    var rest := data[|FENCE|..];
    assert rest == text + FENCE + tail;
    CloserFound(text, tail);
    assert rest[..|text| - 1] == text[..|text| - 1];
    assert rest[|text| - 1 + |CLOSER|..] == tail;
  }

  /** Reading back what was written gives the stored event, for every body. */
  lemma ParseMarshal(y: Yaml, e: Event)
    requires Encodes(y, e)
    ensures Parse(y, Marshal(y, e)) == Ok(Normal(e))
  {
    var body := ChopNewlines(e.body);
    ParseFound(y, y.encode(Front(e)), if body == "" then "" else body + "\n");
    ChopAppended(body);
    ChopTwice(e.body);
  }

  lemma ParseBare(y: Yaml, text: string)
    requires text != "" && text[|text| - 1] == '\n' && forall i: nat :: !OccursAt(text, CLOSER, i)
    ensures Parse(y, FENCE + text + "---") == ParseFront(y, text[..|text| - 1], "")
  {
    var data := FENCE + text + "---";
    var rest := data[|FENCE|..];
    assert rest == text + "---";
    assert rest[|rest| - 4..] == "\n---" && rest[..|rest| - 4] == text[..|text| - 1];
    NoCloser(text);
  }

  /** A file that lost its last line feed still reads the same. */
  lemma ParseUnterminated(y: Yaml, e: Event)
    requires Encodes(y, e)
    ensures Parse(y, Marshal(y, e)[..|Marshal(y, e)| - 1]) == Ok(Normal(e))
  {
    var text, body := y.encode(Front(e)), ChopNewlines(e.body);
    var data := Marshal(y, e)[..|Marshal(y, e)| - 1];
    ChopTwice(e.body);
    if body == "" {
      assert data == FENCE + text + "---";
      ParseBare(y, text);
    } else {
      assert data == FENCE + text + FENCE + body;
      ParseFound(y, text, body);
    }
  }

  lemma NoCloser(text: string)
    requires text != "" && forall i: nat :: !OccursAt(text, CLOSER, i)
    ensures Index(text + "---", CLOSER) == None
  {
    var s := text + "---";
    forall i: nat
      ensures !OccursAt(s, CLOSER, i)
    {
      CloserSpelled(s, i);
      if i + 5 <= |text| { OccursInHead(text, "---", CLOSER, i); }
    }
  }

  /** Storage is idempotent: a stored event is written exactly as the original was. */
  lemma MarshalNormal(y: Yaml, e: Event)
    ensures Marshal(y, Normal(e)) == Marshal(y, e)
  {
    ChopTwice(e.body);
  }

  // ----- Files that do not read -----

  lemma CutExactly(rest: string)
    ensures Cut(rest) == None <==>
      (forall i: nat :: !OccursAt(rest, CLOSER, i)) && !(|rest| >= 4 && rest[|rest| - 4..] == "\n---")
  {
    var found := Index(rest, CLOSER);
    if found.Some? { assert OccursAt(rest, CLOSER, found.value); }
  }

  /** A file is refused before its front matter is decoded exactly when a fence is missing. */
  lemma UnfencedIsRefused(y: Yaml, data: string)
    ensures Parse(y, data) == MissingOpener <==> !(FENCE <= data)
    ensures Parse(y, data) == MissingCloser <==> FENCE <= data && Cut(data[|FENCE|..]) == None
  {
  }
}
