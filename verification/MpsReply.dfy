/** recvTuneMPS of src/bexpproc/mps.c: the tuning reply, read byte by byte in chunks of whatever size
    happens to be there. */
module MpsReply {
  import opened Common

  predicate Digit(c: char) {
    '0' <= c <= '9'
  }

  function Digits(s: string): string {
    if s == "" then "" else (if Digit(s[0]) then [s[0]] else "") + Digits(s[1..])
  }

  /** The comma-separated fields of a text. */
  function Fields(s: string): (fs: seq<string>)
    ensures fs != []
  {
    if s == "" then [""]
    else
      var rest := Fields(s[1..]);
      if s[0] == ',' then [""] + rest else [[s[0]] + rest[0]] + rest[1..]
  }

  function DigitsOfAll(fs: seq<string>): (ds: seq<string>)
    ensures |ds| == |fs|
  {
    seq(|fs|, i requires 0 <= i < |fs| => Digits(fs[i]))
  }

  function DigitFields(s: string): (fs: seq<string>)
    ensures |fs| == |Fields(s)|
  {
    DigitsOfAll(Fields(s))
  }

  function Concat(chunks: seq<string>): string {
    if chunks == [] then "" else chunks[0] + Concat(chunks[1..])
  }

  predicate NoNewline(s: string) {
    forall i :: 0 <= i < |s| ==> s[i] != '\n'
  }

  // ----- the reader -----------------------------------------------------------------------------------------

  /** The lines written, the line under way, the commas seen. */
  datatype Reader = Reader(written: seq<string>, line: string, vals: nat, reading: bool)

  const READER0 := Reader([], "", 0, true)

  /** One byte; `last` when it ends its chunk. */
  function Feed(r: Reader, ch: char, last: bool): Reader {
    if ch == ',' then r.(written := r.written + [r.line], line := "", vals := r.vals + 1)
    else if Digit(ch) then r.(line := r.line + [ch])
    else if ch == '\n' && r.vals != 0 then r.(written := r.written + [r.line], line := "", reading := false)
    else if ch == '\n' && last then r.(reading := false)
    else r
  }

  function FeedChunk(r: Reader, chunk: string): Reader
    decreases |chunk|
  {
    if chunk == "" then r else FeedChunk(Feed(r, chunk[0], |chunk| == 1), chunk[1..])
  }

  /** Chunks are taken while the reader is reading. */
  function FeedAll(r: Reader, chunks: seq<string>): Reader
    decreases |chunks|
  {
    if chunks == [] || !r.reading then r else FeedAll(FeedChunk(r, chunks[0]), chunks[1..])
  }

  class MpsPort {
    var line: string
    var written: seq<string>
    var vals: nat
    var reading: bool

    ghost function View(): Reader
      reads this
    {
      Reader(written, line, vals, reading)
    }

    constructor ()
      ensures View() == READER0
    {
      line, written, vals, reading := "", [], 0, true;
    }

    method Byte(ch: char, last: bool)
      modifies this
      ensures View() == Feed(old(View()), ch, last)
    {
      if ch == ',' {
        written := written + [line];
        line := "";
        vals := vals + 1;
      }
      if Digit(ch) {
        line := line + [ch];
      }
      if ch == '\n' && vals != 0 {
        written := written + [line];
        line := "";
        reading := false;
      } else if ch == '\n' && last {
        reading := false;
      }
    }

    /** The bytes that are there are all read, whatever they say. */
    method Chunk(chunk: string)
      modifies this
      ensures View() == FeedChunk(old(View()), chunk)
    {
      var i := 0;
      while i < |chunk|
        invariant i <= |chunk|
        invariant FeedChunk(View(), chunk[i..]) == FeedChunk(old(View()), chunk)
      {
        assert chunk[i..][1..] == chunk[i + 1..];
        i := i + 1;
        Byte(chunk[i - 1], i == |chunk|);
      }
    }

    method RecvTuneMPS(chunks: seq<string>)
      modifies this
      ensures View() == FeedAll(old(View()), chunks)
    {
      hide FeedChunk;
      var n := 0;
      while reading && n < |chunks|
        invariant n <= |chunks|
        invariant FeedAll(View(), chunks[n..]) == FeedAll(old(View()), chunks)
      {
        assert chunks[n..][1..] == chunks[n + 1..];
        Chunk(chunks[n]);
        n := n + 1;
      }
    }
  }

  // ----- the split into chunks does not matter ----------------------------------------------------------------

  /** Text without a newline. */
  function FeedText(r: Reader, s: string): Reader
    decreases |s|
  {
    if s == "" then r else FeedText(Feed(r, s[0], false), s[1..])
  }

  lemma {:induction false} ChunkIsText(r: Reader, s: string)
    requires NoNewline(s)
    ensures FeedChunk(r, s) == FeedText(r, s)
    ensures FeedText(r, s).reading == r.reading
    decreases |s|
  {
    if s != "" { ChunkIsText(Feed(r, s[0], false), s[1..]); }
  }

  lemma {:induction false} LastChunk(r: Reader, s: string)
    requires NoNewline(s)
    ensures FeedChunk(r, s + "\n") == Feed(FeedText(r, s), '\n', true)
    decreases |s|
  {
    if s == "" {
      assert s + "\n" == "\n";
      assert FeedChunk(Feed(r, '\n', true), "") == Feed(r, '\n', true);
      assert "\n"[1..] == "";
    } else {
      assert (s + "\n")[1..] == s[1..] + "\n";
      LastChunk(Feed(r, s[0], false), s[1..]);
    }
  }

  lemma {:induction false} TextThen(r: Reader, a: string, b: string)
    ensures FeedText(r, a + b) == FeedText(FeedText(r, a), b)
    decreases |a|
  {
    if a == "" {
      assert a + b == b;
    } else {
      assert (a + b)[1..] == a[1..] + b;
      TextThen(Feed(r, a[0], false), a[1..], b);
    }
  }

  lemma SplitText(c: string, d: string, text: string)
    requires c + d == text + "\n" && |c| <= |text|
    ensures d == text[|c|..] + "\n" && text == c + text[|c|..]
    ensures NoNewline(text) ==> NoNewline(c) && NoNewline(text[|c|..])
  {
    assert c == (c + d)[..|c|] == text[..|c|];
    assert d == (c + d)[|c|..];
    assert text == text[..|c|] + text[|c|..];
  }

  /** However the bytes of a reply with one newline, its last byte, come in. */
  lemma {:induction false} AnyChunks(r: Reader, chunks: seq<string>, text: string)
    requires r.reading && NoNewline(text) && Concat(chunks) == text + "\n"
    ensures FeedAll(r, chunks) == Feed(FeedText(r, text), '\n', true)
    decreases |chunks|
  {
    hide Feed, FeedText, FeedChunk;
    var c := chunks[0];
    assert Concat(chunks) == c + Concat(chunks[1..]);
    if |c| <= |text| {
      var rest := text[|c|..];
      SplitText(c, Concat(chunks[1..]), text);
      ChunkIsText(r, c);
      AnyChunks(FeedText(r, c), chunks[1..], rest);
      TextThen(r, c, rest);
    } else {
      assert c == text + "\n";
      LastChunk(r, text);
      NewlineStops(FeedText(r, text));
    }
  }

  lemma NewlineStops(r: Reader)
    ensures !Feed(r, '\n', true).reading
  {
  }

  // ----- what is written ------------------------------------------------------------------------------------------

  /** Fields of a text, a character at a time. */
  lemma DigitFieldsStep(c: char, rest: string)
    ensures DigitFields([c] + rest) == FieldStep(c, DigitFields(rest))
  {
    var fs := Fields(rest);
    FieldsOfMore(c, rest);
    DigitsOfFirst(fs[0], fs[1..]);
    assert [fs[0]] + fs[1..] == fs;
    if c == ',' {
      DigitsOfFirst("", fs);
    } else {
      DigitsOfFirst([c] + fs[0], fs[1..]);
      DigitsOfMore(c, fs[0]);
    }
  }

  lemma FieldsOfMore(c: char, rest: string)
    ensures var fs := Fields(rest); Fields([c] + rest) == if c == ',' then [""] + fs else [[c] + fs[0]] + fs[1..]
  {
    assert ([c] + rest)[1..] == rest;
  }

  lemma DigitsOfFirst(w: string, fs: seq<string>)
    ensures DigitsOfAll([w] + fs) == [Digits(w)] + DigitsOfAll(fs)
    ensures Digits("") == ""
  {
    hide Digits;
    assert Digits("") == "" by { NoDigits(); }
  }

  lemma NoDigits()
    ensures Digits("") == ""
  {
  }

  lemma DigitsOfMore(c: char, w: string)
    ensures Digits([c] + w) == if Digit(c) then [c] + Digits(w) else Digits(w)
  {
    assert ([c] + w)[1..] == w && "" + Digits(w) == Digits(w);
  }

  lemma Whole(before: seq<string>, g: seq<string>)
    requires g != []
    ensures before + ["" + g[0]] + g[1..] == before + g
  {
    assert "" + g[0] == g[0];
    assert [g[0]] + g[1..] == g;
  }

  function FieldStep(c: char, g: seq<string>): seq<string>
    requires g != []
  {
    if c == ',' then [""] + g else if Digit(c) then [[c] + g[0]] + g[1..] else g
  }

  /** One character more, for the reader and for the fields. */
  lemma LineStep(r: Reader, c: char, g: seq<string>)
    requires g != [] && c != '\n'
    ensures var t, f := Feed(r, c, false), FieldStep(c, g);
            && t.written + [t.line + g[0]] + g[1..] == r.written + [r.line + f[0]] + f[1..]
            && t.vals + |g| == r.vals + |f|
  {
    if c == ',' {
      Whole(r.written + [r.line], g);
      assert r.line + "" == r.line;
    } else if Digit(c) {
      assert r.line + [c] + g[0] == r.line + ([c] + g[0]);
    }
  }

  lemma {:induction false} LinesFed(r: Reader, s: string)
    requires NoNewline(s)
    ensures var e := FeedText(r, s);
            && e.written + [e.line] == r.written + [r.line + DigitFields(s)[0]] + DigitFields(s)[1..]
            && e.vals == r.vals + |DigitFields(s)| - 1
    decreases |s|
  {
    hide Feed, Digits;
    if s == "" {
      NothingFed(r);
    } else {
      assert s == [s[0]] + s[1..];
      DigitFieldsStep(s[0], s[1..]);
      LinesFed(Feed(r, s[0], false), s[1..]);
      LineStep(r, s[0], DigitFields(s[1..]));
      hide DigitFields, Fields;
    }
  }

  lemma NothingFed(r: Reader)
    ensures DigitFields("") == [""] && r.line + "" == r.line
  {
  }

  /** A reply that ends with its only newline gives its fields, stripped to their digits, in order,
      however it is split; but a reply of one field gives nothing. */
  lemma FieldsWritten(chunks: seq<string>, text: string)
    requires NoNewline(text) && Concat(chunks) == text + "\n"
    ensures var r := FeedAll(READER0, chunks);
            !r.reading && r.written == if |Fields(text)| >= 2 then DigitFields(text) else []
  {
    AnyChunks(READER0, chunks, text);
    LinesFed(READER0, text);
    var f, e := DigitFields(text), FeedText(READER0, text);
    hide FeedText, FeedAll, DigitFields, Fields;
    Whole([], f);
    assert [] + f == f;
    if |f| == 1 {
      assert |e.written + [e.line]| == 1;
    }
  }

  lemma {:induction false} DigitsBoth(a: string, b: string)
    ensures Digits(a + b) == Digits(a) + Digits(b)
  {
    if a == "" {
      assert a + b == b && Digits("") == "" && "" + Digits(b) == Digits(b);
    } else {
      var first, rest := if Digit(a[0]) then [a[0]] else "", Digits(a[1..]);
      assert (a + b)[1..] == a[1..] + b && (a + b)[0] == a[0];
      DigitsBoth(a[1..], b);
      assert Digits(a + b) == first + (rest + Digits(b)) && Digits(a) == first + rest;
      hide *;
      assert first + (rest + Digits(b)) == first + rest + Digits(b);
    }
  }

  /** Of a field, the characters that are no digits go, and nothing else. */
  lemma OnlyDigitsStay(a: string, c: char, b: string)
    ensures Digits(a + [c] + b) == if '0' <= c <= '9' then Digits(a) + [c] + Digits(b) else Digits(a + b)
  {
    DigitsBoth(a, [c]);
    DigitsBoth(a + [c], b);
    DigitsBoth(a, b);
    assert [c][1..] == "" && Digits("") == "";
    assert Digits([c]) == if Digit(c) then [c] else "";
  }

  predicate AllDigits(f: string) {
    forall i :: 0 <= i < |f| ==> Digit(f[i])
  }

  lemma {:induction false} DigitsOf(f: string)
    requires AllDigits(f)
    ensures Digits(f) == f && Fields(f) == [f]
  {
    if f != "" {
      DigitsOf(f[1..]);
      assert [f[0]] + f[1..] == f;
    }
  }

  lemma {:induction false} FieldThen(f: string, rest: string)
    requires AllDigits(f)
    ensures Fields(f + ("," + rest)) == [f] + Fields(rest)
  {
    if f == "" {
      assert f + ("," + rest) == "," + rest && ("," + rest)[1..] == rest;
    } else {
      var s := f + ("," + rest);
      assert s[1..] == f[1..] + ("," + rest);
      FieldThen(f[1..], rest);
      assert [f[0]] + f[1..] == f;
      assert ([f[1..]] + Fields(rest))[1..] == Fields(rest);
    }
  }

  lemma {:induction false} JoinedFields(fs: seq<string>)
    requires fs != [] && forall i :: 0 <= i < |fs| ==> AllDigits(fs[i])
    ensures Fields(Join(fs)) == fs && NoNewline(Join(fs))
    decreases |fs|
  {
    if |fs| == 1 {
      DigitsOf(fs[0]);
      assert fs == [fs[0]];
    } else {
      JoinedFields(fs[1..]);
      FieldThen(fs[0], Join(fs[1..]));
      assert [fs[0]] + fs[1..] == fs;
    }
  }

  /** Digit fields are written as they were sent just when there are two of them or more. */
  lemma ReplyReadBack(chunks: seq<string>, fs: seq<string>)
    requires fs != [] && forall i, j :: 0 <= i < |fs| && 0 <= j < |fs[i]| ==> '0' <= fs[i][j] <= '9'
    requires Concat(chunks) == Join(fs) + "\n"
    ensures FeedAll(READER0, chunks).written == fs <==> |fs| >= 2
  {
    forall i | 0 <= i < |fs| ensures AllDigits(fs[i]) {
      forall j | 0 <= j < |fs[i]| ensures Digit(fs[i][j]) {
      }
    }
    JoinedFields(fs);
    FieldsWritten(chunks, Join(fs));
    forall i | 0 <= i < |fs| ensures Digits(fs[i]) == fs[i] {
      DigitsOf(fs[i]);
    }
    assert DigitFields(Join(fs)) == fs;
  }
}
