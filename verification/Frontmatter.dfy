/** Setting one key of a document's front matter by line surgery. */
module Frontmatter {
  import opened Text

  datatype Key = Title | Type

  function Head(key: Key): string
  {
    match key
    case Title => "title:"
    case Type => "type:"
  }

  const OPEN := "---\n"
  const CLOSE := "\n---"
  const FENCE := "---"

  /** The front matter's text, and everything from its closing fence on; None when it is not closed. */
  function Frame(s: string): Option<(string, string)>
  {
    if !(OPEN <= s) then None
    else
      var rest := s[|OPEN|..];
      match Index(rest, CLOSE)
      case None => None
      case Some(end) => Some((rest[..end], rest[end..]))
  }

  predicate Hit(line: string, key: Key)
  {
    Head(key) <= TrimSpace(line)
  }

  function FirstHit(lines: seq<string>, key: Key): (r: Option<nat>)
    ensures r.Some? ==> r.value < |lines| && Hit(lines[r.value], key)
    ensures r.Some? ==> forall i :: 0 <= i < r.value ==> !Hit(lines[i], key)
    ensures r.None? ==> forall i :: 0 <= i < |lines| ==> !Hit(lines[i], key)
  {
    if lines == [] then None
    else if Hit(lines[0], key) then Some(0)
    else
      match FirstHit(lines[1..], key)
      case None => None
      case Some(i) =>
        assert forall j :: 0 < j < |lines| ==> lines[j] == lines[1..][j - 1];
        Some(i + 1)
  }

  function Replaced(lines: seq<string>, key: Key, line: string): seq<string>
  {
    match FirstHit(lines, key)
    case Some(i) => lines[i := line]
    case None => [line] + lines
  }

  predicate Sets(line: string, key: Key)
  {
    (if key.Title? then "title:" else "type:") <= TrimSpace(line)
  }

  /** Only line i differs, and it is the first that set the key. */
  predicate ChangesFirst(lines: seq<string>, key: Key, line: string, r: seq<string>, i: nat)
  {
    && i < |lines| == |r| && Sets(lines[i], key) && r[i] == line
    && (forall j :: 0 <= j < i ==> !Sets(lines[j], key))
    && forall j :: 0 <= j < |lines| && j != i ==> r[j] == lines[j]
  }

  /** One line changes at most: the first that sets the key, or else the line comes before all others. */
  lemma ReplacedExactly(lines: seq<string>, key: Key, line: string)
    ensures (exists i :: ChangesFirst(lines, key, line, Replaced(lines, key, line), i))
         || ((forall i :: 0 <= i < |lines| ==> !Sets(lines[i], key)) && Replaced(lines, key, line) == [line] + lines)
  {
    var r := FirstHit(lines, key);
    if r.Some? {
      assert ChangesFirst(lines, key, line, Replaced(lines, key, line), r.value);
    }
  }

  /** A block of its own before a document that has none. */
  function Prepended(s: string, line: string): string
  {
    OPEN + line + CLOSE + "\n\n" + s
  }

  function Injected(s: string, key: Key, line: string): string
  {
    match Frame(s)
    case None => Prepended(s, line)
    case Some(f) => OPEN + Unlines(ReplacedIn(f.0, key, line)) + f.1
  }

  function ReplacedIn(block: string, key: Key, line: string): (r: seq<string>)
    ensures r != []
  {
    Replaced(Lines(block), key, line)
  }

  method Inject(data: string, key: Key, line: string) returns (r: string)
    ensures r == Injected(data, key, line)
  {
    if !(OPEN <= data) {
      return OPEN + line + CLOSE + "\n\n" + data;
    }
    var rest := data[|OPEN|..];
    var end := Index(rest, CLOSE);
    if end.None? {
      return OPEN + line + CLOSE + "\n\n" + data;
    }
    var lines := Lines(rest[..end.value]);
    ghost var before := lines;
    var replaced, i := false, 0;
    while i < |lines| && !replaced
      invariant 0 <= i <= |lines| == |before|
      invariant !replaced ==> lines == before && forall j :: 0 <= j < i ==> !Hit(before[j], key)
      invariant replaced ==> lines == Replaced(before, key, line) && FirstHit(before, key).Some?
      decreases |lines| - i, !replaced
    {
      if Hit(lines[i], key) {
        lines := lines[i := line];
        replaced := true;
      } else {
        i := i + 1;
      }
    }
    if !replaced {
      lines := [line] + lines;
    }
    r := OPEN + Unlines(lines) + rest[end.value..];
  }

  // ----- Where the closing fence is -----

  /** The line sets the key and is a single line. */
  predicate Entry(line: string, key: Key)
  {
    OneLine(line) && Head(key) <= line
  }

  lemma {:induction false} TrimRightKeeps(p: string, s: string)
    requires p != [] && !IsSpace(p[|p| - 1]) && p <= s
    ensures p <= TrimRight(s)
    decreases |s|
  {
    if IsSpace(s[|s| - 1]) { TrimRightKeeps(p, s[..|s| - 1]); }
  }

  lemma EntryHits(line: string, key: Key)
    requires Entry(line, key)
    ensures forall k :: Hit(line, k) <==> k == key
    ensures !(FENCE <= line)
  {
    TrimRightKeeps(Head(key), line);
    assert line[0] == 't' && line[1] == Head(key)[1];
    assert TrimLeft(line) == line;
    assert TrimSpace(line)[1] == Head(key)[1];
  }

  predicate Fenceless(lines: seq<string>)
  {
    forall i :: 0 < i < |lines| ==> !(FENCE <= lines[i])
  }

  predicate OneLiners(lines: seq<string>)
  {
    forall i :: 0 <= i < |lines| ==> OneLine(lines[i])
  }

  lemma {:induction false} FirstLineIsPrefix(s: string)
    ensures Lines(s)[0] <= s
  {
    if s != [] { FirstLineIsPrefix(s[1..]); }
  }

  lemma {:induction false} BlockIsFenceless(block: string, tail: string)
    requires forall j: nat :: j < |block| ==> !OccursAt(block + tail, CLOSE, j)
    ensures Fenceless(Lines(block))
  {
    if block != [] {
      var s, rest := block + tail, block[1..];
      assert rest + tail == s[1..];
      forall j: nat | j < |rest| ensures !OccursAt(rest + tail, CLOSE, j) {
        assert !OccursAt(s, CLOSE, j + 1);
        assert j + 1 + |CLOSE| <= |s| ==> s[j + 1..j + 1 + |CLOSE|] == (rest + tail)[j..j + |CLOSE|];
      }
      BlockIsFenceless(rest, tail);
      FirstLineIsPrefix(rest);
      if block[0] == '\n' && FENCE <= Lines(rest)[0] {
        assert s[0..|CLOSE|] == CLOSE;
        assert OccursAt(s, CLOSE, 0);
      }
    }
  }

  lemma FrameShape(s: string)
    requires Frame(s).Some?
    ensures var (block, tail) := Frame(s).value;
      s == OPEN + block + tail && CLOSE <= tail && Fenceless(Lines(block)) && OneLiners(Lines(block))
  {
    var (block, tail) := Frame(s).value;
    assert s[|OPEN|..] == block + tail;
    BlockIsFenceless(block, tail);
    LinesAreOneLine(block);
  }

  lemma {:induction false} NoFenceBefore(lines: seq<string>, tail: string, j: nat)
    requires lines != [] && OneLiners(lines) && Fenceless(lines) && CLOSE <= tail && j < |Unlines(lines)|
    ensures !OccursAt(Unlines(lines) + tail, CLOSE, j)
    decreases |lines|
  {
    var s := Unlines(lines) + tail;
    if j < |lines[0]| {
      assert s[j] == lines[0][j] != '\n';
      assert j + |CLOSE| <= |s| ==> s[j..j + |CLOSE|][0] == s[j];
    } else {
      var rest := Unlines(lines[1..]) + tail;
      assert s == lines[0] + "\n" + rest;
      if j > |lines[0]| {
        var k := j - |lines[0]| - 1;
        NoFenceBefore(lines[1..], tail, k);
        assert j + |CLOSE| <= |s| ==> s[j..j + |CLOSE|] == rest[k..k + |CLOSE|];
      } else if OccursAt(s, CLOSE, j) {
        assert s[j..j + |CLOSE|] == "\n" + rest[..|FENCE|];
        assert rest[..|FENCE|] == s[j..j + |CLOSE|][1..] == FENCE;
        LineStarts(lines[1..], tail);
        assert false;
      }
    }
  }

  /** A fence at the start of some lines is a fence at the start of the first one. */
  lemma LineStarts(lines: seq<string>, tail: string)
    requires lines != [] && OneLiners(lines) && CLOSE <= tail && FENCE <= Unlines(lines) + tail
    ensures FENCE <= lines[0]
  {
    var s, first := Unlines(lines) + tail, lines[0];
    assert |first| < |s| && first <= s && s[|first|] == '\n';
  }

  /** The closing fence of lines that hold none. */
  lemma FrameOf(lines: seq<string>, tail: string)
    requires lines != [] && OneLiners(lines) && Fenceless(lines) && CLOSE <= tail
    ensures Frame(OPEN + Unlines(lines) + tail) == Some((Unlines(lines), tail)) && Lines(Unlines(lines)) == lines
  {
    var block := Unlines(lines);
    var s := OPEN + block + tail;
    assert s[|OPEN|..] == block + tail;
    assert (block + tail)[|block|..|block| + |CLOSE|] == CLOSE;
    forall j: nat | j < |block| ensures !OccursAt(block + tail, CLOSE, j) {
      NoFenceBefore(lines, tail, j);
    }
    IndexUnique(block + tail, CLOSE, |block|);
    LinesUnlines(lines);
  }

  // ----- What an injection leaves -----

  /** Closed front matter that opens with a second fence and does not set the key. */
  predicate Torn(s: string, key: Key)
  {
    && Frame(s).Some?
    && FENCE <= Lines(Frame(s).value.0)[0]
    && FirstHit(Lines(Frame(s).value.0), key).None?
  }

  /** The lines of the front matter; none when it is not closed. */
  function Entries(s: string): seq<string>
  {
    if Frame(s).Some? then Lines(Frame(s).value.0) else []
  }

  /** What follows the front matter; a document without one follows the block that is put before it. */
  function Rest(s: string): string
  {
    if Frame(s).Some? then Frame(s).value.1 else CLOSE + "\n\n" + s
  }

  lemma EntryAlone(line: string, key: Key, tail: string)
    requires Entry(line, key) && CLOSE <= tail
    ensures Frame(OPEN + line + tail) == Some((line, tail)) && Lines(line) == [line]
  {
    EntryHits(line, key);
    FrameOf([line], tail);
  }

  lemma BlockInFront(line: string, block: string, tail: string)
    ensures OPEN + Unlines([line] + Lines(block)) + tail == OPEN + line + ("\n" + block + tail)
  {
    UnlinesLines(block);
    assert ([line] + Lines(block))[1..] == Lines(block);
  }

  lemma TornTail(s: string, key: Key)
    requires Torn(s, key)
    ensures CLOSE <= "\n" + Frame(s).value.0 + Frame(s).value.1
  {
    var block := Frame(s).value.0;
    FirstLineIsPrefix(block);
    assert block[..|FENCE|] == FENCE;
  }

  /** On torn front matter only the new line is left inside, and nothing is lost outside. */
  lemma InjectTorn(s: string, key: Key, line: string)
    requires Entry(line, key) && Torn(s, key)
    ensures var r := Injected(s, key, line);
      Frame(r) == Some((line, "\n" + Frame(s).value.0 + Frame(s).value.1)) && Entries(r) == [line]
  {
    var (block, tail) := Frame(s).value;
    TornTail(s, key);
    EntryAlone(line, key, "\n" + block + tail);
    BlockInFront(line, block, tail);
  }

  lemma InjectFresh(s: string, key: Key, line: string)
    requires Entry(line, key) && Frame(s).None?
    ensures Frame(Injected(s, key, line)) == Some((line, Rest(s))) && Lines(line) == [line]
  {
    RestCloses(s);
    PrependedInParts(s, line);
    EntryAlone(line, key, Rest(s));
  }

  lemma RestCloses(s: string)
    requires Frame(s).None?
    ensures CLOSE <= Rest(s)
  {
  }

  lemma PrependedInParts(s: string, line: string)
    requires Frame(s).None?
    ensures Prepended(s, line) == OPEN + line + Rest(s)
  {
    assert OPEN + line + (CLOSE + "\n\n" + s) == OPEN + line + CLOSE + "\n\n" + s;
  }

  lemma ReplacedIsFenceless(lines: seq<string>, key: Key, line: string)
    requires Entry(line, key) && lines != [] && OneLiners(lines) && Fenceless(lines)
    requires FirstHit(lines, key).Some? || !(FENCE <= lines[0])
    ensures OneLiners(Replaced(lines, key, line)) && Fenceless(Replaced(lines, key, line))
  {
    EntryHits(line, key);
  }

  /** Otherwise the line takes the place of the first line that sets the key, or comes first. */
  lemma InjectWhole(s: string, key: Key, line: string)
    requires Entry(line, key) && !Torn(s, key)
    ensures var r := Injected(s, key, line);
      Frame(r).Some? && Entries(r) == Replaced(Entries(s), key, line) && Rest(r) == Rest(s)
  {
    if Frame(s).None? {
      InjectFresh(s, key, line);
      assert Replaced([], key, line) == [line];
    } else {
      FrameShape(s);
      ReplacedIsFenceless(Entries(s), key, line);
      FrameOf(Replaced(Entries(s), key, line), Rest(s));
    }
  }

  /** A front matter's lines and what follows determine the result of an injection. */
  lemma InjectedByParts(s: string, key: Key, line: string)
    ensures Injected(s, key, line) == (if Frame(s).None? then OPEN + line + Rest(s)
                                       else OPEN + Unlines(ReplacedIn(Frame(s).value.0, key, line)) + Rest(s))
  {
    assert OPEN + line + CLOSE + "\n\n" + s == OPEN + line + (CLOSE + "\n\n" + s);
  }

  function Place(lines: seq<string>, key: Key): nat
  {
    if FirstHit(lines, key).Some? then FirstHit(lines, key).value else 0
  }

  lemma ReplacedHit(lines: seq<string>, key: Key, line: string)
    requires Entry(line, key)
    ensures var once := Replaced(lines, key, line);
      FirstHit(once, key) == Some(Place(lines, key)) && once[Place(lines, key)] == line
  {
    EntryHits(line, key);
    var once, i := Replaced(lines, key, line), Place(lines, key);
    assert Hit(once[i], key) && forall j :: 0 <= j < i ==> once[j] == lines[j];
  }

  lemma ReplacedAgain(lines: seq<string>, key: Key, a: string, b: string)
    requires Entry(a, key)
    ensures Replaced(Replaced(lines, key, a), key, b) == Replaced(lines, key, b)
  {
    ReplacedHit(lines, key, a);
  }

  lemma AgainOnTorn(s: string, key: Key, a: string, b: string)
    requires Entry(a, key) && Torn(s, key)
    ensures Injected(Injected(s, key, a), key, b) == Injected(s, key, b)
  {
    var (block, tail) := Frame(s).value;
    InjectTorn(s, key, a);
    EntryHits(a, key);
    BlockInFront(b, block, tail);
    assert Replaced([a], key, b) == [b];
  }

  lemma AgainOnWhole(s: string, key: Key, a: string, b: string)
    requires Entry(a, key) && !Torn(s, key)
    ensures Injected(Injected(s, key, a), key, b) == Injected(s, key, b)
  {
    InjectWhole(s, key, a);
    ReplacedAgain(Entries(s), key, a, b);
    InjectedByParts(s, key, b);
    assert Replaced([], key, b) == [b];
  }

  /** Setting a key twice is setting it once to the last value, whatever the document. */
  lemma LastWriteWins(s: string, key: Key, a: string, b: string)
    requires Entry(a, key)
    ensures Injected(Injected(s, key, a), key, b) == Injected(s, key, b)
  {
    if Torn(s, key) { AgainOnTorn(s, key, a, b); } else { AgainOnWhole(s, key, a, b); }
  }

  lemma Idempotent(s: string, key: Key, line: string)
    requires Entry(line, key)
    ensures Injected(Injected(s, key, line), key, line) == Injected(s, key, line)
  {
    LastWriteWins(s, key, line, line);
  }

  /** The line that sets a key. */
  function Setting(s: string, key: Key): Option<string>
  {
    match FirstHit(Entries(s), key)
    case None => None
    case Some(i) => Some(Entries(s)[i])
  }

  lemma InjectedIsSet(s: string, key: Key, line: string)
    requires Entry(line, key)
    ensures Setting(Injected(s, key, line), key) == Some(line)
  {
    if Torn(s, key) {
      InjectTorn(s, key, line);
      EntryHits(line, key);
    } else {
      InjectWhole(s, key, line);
      ReplacedHit(Entries(s), key, line);
    }
  }

  /** A closing fence stays where it was exactly when the front matter is not torn. */
  lemma RestKept(s: string, key: Key, line: string)
    requires Entry(line, key)
    ensures Rest(Injected(s, key, line)) == Rest(s) <==> !Torn(s, key)
  {
    if Torn(s, key) {
      InjectTorn(s, key, line);
      assert |"\n" + Frame(s).value.0 + Frame(s).value.1| > |Rest(s)|;
    } else {
      InjectWhole(s, key, line);
    }
  }

  /** Setting one key leaves the other alone, unless torn front matter had set it. */
  lemma OtherKeyKept(s: string, key: Key, line: string, other: Key)
    requires Entry(line, key) && other != key
    ensures Setting(Injected(s, key, line), other) == Setting(s, other)
       <==> !(Torn(s, key) && Setting(s, other).Some?)
  {
    EntryHits(line, key);
    var r := Injected(s, key, line);
    if Torn(s, key) {
      InjectTorn(s, key, line);
      assert FirstHit([line], other).None?;
    } else {
      InjectWhole(s, key, line);
      OtherHit(Entries(s), key, line, other);
    }
  }

  lemma HitsAreApart(line: string)
    ensures !(Hit(line, Title) && Hit(line, Type))
  {
    var t := TrimSpace(line);
    if Hit(line, Title) { assert t[1] == Head(Title)[1]; }
    if Hit(line, Type) { assert t[1] == Head(Type)[1]; }
  }

  lemma OtherHit(lines: seq<string>, key: Key, line: string, other: Key)
    requires Entry(line, key) && other != key
    ensures var now := Replaced(lines, key, line);
      match FirstHit(lines, other)
      case None => FirstHit(now, other).None?
      case Some(i) => FirstHit(now, other).Some? && now[FirstHit(now, other).value] == lines[i]
  {
    EntryHits(line, key);
    if FirstHit(lines, key).Some? {
      var i := FirstHit(lines, key).value;
      HitsAreApart(lines[i]);
      SameHits(lines, lines[i := line], other);
    } else {
      OneMore(lines, line, other);
    }
  }

  lemma SameHits(lines: seq<string>, now: seq<string>, key: Key)
    requires |lines| == |now|
    requires forall i :: 0 <= i < |lines| ==> now[i] == lines[i] || (!Hit(now[i], key) && !Hit(lines[i], key))
    ensures FirstHit(lines, key) == FirstHit(now, key)
    ensures FirstHit(now, key).Some? ==> now[FirstHit(now, key).value] == lines[FirstHit(now, key).value]
  {
  }

  lemma OneMore(lines: seq<string>, line: string, key: Key)
    requires !Hit(line, key)
    ensures match FirstHit(lines, key)
      case None => FirstHit([line] + lines, key).None?
      case Some(i) => FirstHit([line] + lines, key) == Some(i + 1)
  {
    assert ([line] + lines)[1..] == lines;
  }

  lemma TornEntries(title: string)
    requires Entry(title, Title)
    ensures var s := OPEN + Unlines([FENCE, title]) + CLOSE;
      Frame(s) == Some((Unlines([FENCE, title]), CLOSE)) && Entries(s) == [FENCE, title]
      && FirstHit(Entries(s), Title) == Some(1) && FirstHit(Entries(s), Type) == None
  {
    EntryHits(title, Title);
    FrameOf([FENCE, title], CLOSE);
    assert TrimSpace(FENCE) == FENCE;
  }

  /** A document whose title any type line hides: an opening fence, a second one, the title, the closing fence. */
  lemma TornLosesTitle(title: string, line: string)
    requires Entry(title, Title) && Entry(line, Type)
    ensures var s := OPEN + Unlines([FENCE, title]) + CLOSE;
      Setting(s, Title) == Some(title) && Setting(Injected(s, Type, line), Title) == None
  {
    TornEntries(title);
    var s := OPEN + Unlines([FENCE, title]) + CLOSE;
    InjectTorn(s, Type, line);
    EntryHits(line, Type);
  }
}
