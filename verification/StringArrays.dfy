/**
 The text format of PostgreSQL arrays (section 8.15.6 of the PostgreSQL manual, "Array Input and Output
 Syntax"). The functions say what the parser computes from the input that is left; `StringArrayParser`
 computes the same with indexes into the text.
 */
module StringArrays {
  import opened Wrappers

  newtype byte = x: int | 0 <= x < 256

  type bytes = seq<byte>

  const OPEN: byte := 123
  const CLOSE: byte := 125
  const QUOTE: byte := 34
  const BACKSLASH: byte := 92
  const COMMA: byte := 44
  const NULL: bytes := [78, 85, 76, 76]

  /** An element is None for SQL's NULL. */
  datatype Parsed = Parsed(dims: seq<nat>, elems: seq<Option<bytes>>)

  datatype ParseError =
    | Expected(wanted: byte, offset: nat)
    | Unexpected(found: byte, offset: nat)
    | Mismatch

  /** The parser after some input: the open braces, the items counted per level, the elements so far. */
  datatype State = State(depth: nat, dims: seq<nat>, elems: seq<Option<bytes>>, rest: bytes)
  {
    /** Levels that are not open have been closed at least once. */
    ghost predicate Sane() {
      depth <= |dims| && forall k | depth <= k < |dims| :: dims[k] >= 1
    }
  }

  predicate HasPrefix(s: bytes, p: bytes) {
    |p| <= |s| && s[..|p|] == p
  }

  /** The inside of a quoted element up to its closing quote, and what follows. */
  function QuotedBody(s: bytes, elem: bytes, escape: bool): (r: Option<(bytes, bytes)>)
    ensures r.Some? ==> |r.value.1| < |s|
    decreases |s|
  {
    if s == [] then None
    else if escape then QuotedBody(s[1..], elem + [s[0]], false)
    else if s[0] == BACKSLASH then QuotedBody(s[1..], elem, true)
    else if s[0] == QUOTE then Some((elem, s[1..]))
    else QuotedBody(s[1..], elem + [s[0]], false)
  }

  /** The length of an unquoted element: up to a delimiter, a closing brace or the end. */
  function BareLength(s: bytes, del: bytes): (n: nat)
    ensures n <= |s|
    ensures n < |s| ==> HasPrefix(s[n..], del) || s[n] == CLOSE
  {
    if s == [] || HasPrefix(s, del) || s[0] == CLOSE then 0 else 1 + BareLength(s[1..], del)
  }

  /** The part labelled `Element`; an element that does not end consumes all input. */
  function Element(st: State, del: bytes, total: nat): (r: Result<State, ParseError>)
    requires st.Sane() && |st.rest| <= total
    ensures r.Ok? ==> r.value.Sane() && |r.value.rest| <= |st.rest| && |r.value.dims| == |st.dims|
    decreases |st.rest|
  {
    if st.rest == [] then Ok(st)
    else if st.rest[0] == OPEN then
      if st.depth == |st.dims| then Ok(st)
      else Element(State(st.depth + 1, st.dims[st.depth := 0], st.elems, st.rest[1..]), del, total)
    else if st.rest[0] == QUOTE then
      match QuotedBody(st.rest[1..], [], false)
      case None => Ok(st.(rest := []))
      case Some((elem, rest)) => Ok(st.(elems := st.elems + [Some(elem)], rest := rest))
    else
      var n := BareLength(st.rest, del);
      if n == |st.rest| then Ok(st.(rest := []))
      else if n == 0 then Err(Unexpected(st.rest[0], total - |st.rest|))
      else Ok(st.(elems := st.elems + [if st.rest[..n] == NULL then None else Some(st.rest[..n])],
          rest := st.rest[n..]))
  }

  /** What follows an element: delimiters lead to the next element, braces close levels. */
  function After(st: State, del: bytes, total: nat): (r: Result<State, ParseError>)
    requires st.Sane() && |st.rest| <= total && del != []
    ensures r.Ok? ==> r.value.Sane() && r.value.rest == [] && |r.value.dims| == |st.dims|
    decreases |st.rest|
  {
    if st.rest == [] then Ok(st)
    else if HasPrefix(st.rest, del) && st.depth > 0 then
      match Element(State(st.depth, st.dims[st.depth - 1 := st.dims[st.depth - 1] + 1], st.elems, st.rest[|del|..]),
          del, total)
      case Err(e) => Err(e)
      case Ok(next) => After(next, del, total)
    else if st.rest[0] == CLOSE && st.depth > 0 then
      After(State(st.depth - 1, st.dims[st.depth - 1 := st.dims[st.depth - 1] + 1], st.elems, st.rest[1..]), del, total)
    else Err(Unexpected(st.rest[0], total - |st.rest|))
  }

  /** The braces an input starts with. */
  function Opening(s: bytes): (n: nat)
    ensures n <= |s|
    ensures n < |s| ==> s[n] != OPEN
    ensures forall k | 0 <= k < n :: s[k] == OPEN
  {
    if s == [] || s[0] != OPEN then 0 else 1 + Opening(s[1..])
  }

  function Zeros(n: nat): seq<nat> {
    seq(n, _ => 0)
  }

  /** The part labelled `Close`, reached directly when the array is empty: the levels left open at the end. */
  function Closing(s: bytes, depth: nat, total: nat): Result<nat, ParseError>
    requires |s| <= total
    decreases |s|
  {
    if s == [] then Ok(depth)
    else if s[0] == CLOSE && depth > 0 then Closing(s[1..], depth - 1, total)
    else Err(Unexpected(s[0], total - |s|))
  }

  /** The check at the end; it divides by each dimension, all of which are positive. */
  predicate DimensionsMatch(dims: seq<nat>, n: nat)
    requires forall d | d in dims :: d > 0
  {
    forall d | d in dims :: n % d == 0
  }

  lemma {:induction false} ClosedDimsArePositive(st: State)
    requires st.Sane() && st.depth == 0
    ensures forall d | d in st.dims :: d > 0
  {
    forall d | d in st.dims
      ensures d > 0
    {
      var k :| 0 <= k < |st.dims| && st.dims[k] == d;
    }
  }

  /** `parseArray`. */
  function ParseArray(src: bytes, del: bytes): Result<Parsed, ParseError>
    requires del != []
  {
    if |src| < 1 || src[0] != OPEN then Err(Expected(OPEN, 0))
    else
      var n := Opening(src);
      if n < |src| && src[n] == CLOSE then
        match Closing(src[n..], n, |src|)
        case Err(e) => Err(e)
        case Ok(depth) => if depth > 0 then Err(Expected(CLOSE, |src|)) else Ok(Parsed([], []))
      else
        match Element(State(n, Zeros(n), [], src[n..]), del, |src|)
        case Err(e) => Err(e)
        case Ok(st) =>
          match After(st, del, |src|)
          case Err(e) => Err(e)
          case Ok(end) =>
            if end.depth > 0 then Err(Expected(CLOSE, |src|))
            else
              ClosedDimsArePositive(end);
              if DimensionsMatch(end.dims, |end.elems|) then Ok(Parsed(end.dims, end.elems)) else Err(Mismatch)
  }

  datatype LinearError = Malformed(error: ParseError) | NotLinear(dims: seq<nat>)

  /** `scanLinearArray` with the delimiter of text arrays. */
  function ScanLinear(src: bytes): Result<seq<Option<bytes>>, LinearError> {
    match ParseArray(src, [COMMA])
    case Err(e) => Err(Malformed(e))
    case Ok(p) => if |p.dims| > 1 then Err(NotLinear(p.dims)) else Ok(p.elems)
  }

  // ----- one step of what follows an element -----

  lemma {:induction false} AfterDelimiter(st: State, del: bytes, total: nat)
    requires st.Sane() && |st.rest| <= total && del != [] && HasPrefix(st.rest, del) && st.depth > 0
    ensures var next := State(st.depth, st.dims[st.depth - 1 := st.dims[st.depth - 1] + 1], st.elems, st.rest[|del|..]);
            next.Sane()
            && After(st, del, total) == match Element(next, del, total)
                                        case Err(e) => Err(e)
                                        case Ok(read) => After(read, del, total)
  {
    hide Element;
  }

  lemma {:induction false} AfterBrace(st: State, del: bytes, total: nat)
    requires st.Sane() && |st.rest| <= total && del != [] && st.rest != []
    requires !(HasPrefix(st.rest, del) && st.depth > 0)
    ensures st.rest[0] == CLOSE && st.depth > 0 ==>
              var next := State(st.depth - 1, st.dims[st.depth - 1 := st.dims[st.depth - 1] + 1], st.elems,
                  st.rest[1..]);
              next.Sane() && After(st, del, total) == After(next, del, total)
    ensures !(st.rest[0] == CLOSE && st.depth > 0) ==>
            After(st, del, total) == Err(Unexpected(st.rest[0], total - |st.rest|))
  {
  }

  // ----- what holds of accepted input -----

  /** Between two delimiters there is exactly one element, so that an array of one dimension counts its elements. */
  lemma {:induction false} AfterCounts(st: State, del: bytes, total: nat)
    requires st.Sane() && |st.rest| <= total && del != [] && del[0] != OPEN
    requires |st.dims| == 1 && st.depth == 1 && |st.elems| == st.dims[0] + 1
    requires After(st, del, total).Ok? && After(st, del, total).value.depth == 0
    ensures |After(st, del, total).value.elems| == After(st, del, total).value.dims[0]
    decreases |st.rest|
  {
    if HasPrefix(st.rest, del) {
      var before := State(1, st.dims[0 := st.dims[0] + 1], st.elems, st.rest[|del|..]);
      var next := Element(before, del, total).value;
      assert next.rest != [] && next.rest[0] == OPEN ==> !HasPrefix(next.rest, del);
      if next.rest != [] {
        AfterCounts(next, del, total);
      }
    } else {
      assert st.rest != [] && st.rest[0] == CLOSE;
      var closed := State(0, st.dims[0 := st.dims[0] + 1], st.elems, st.rest[1..]);
      assert After(st, del, total) == After(closed, del, total);
      assert closed.rest == [];
    }
  }

  /**
   Accepted input: every dimension is positive and divides the number of elements, and an array of one
   dimension has exactly as many elements as its dimension says.
   */
  lemma {:induction false} AcceptedDimensions(src: bytes, del: bytes)
    requires del != [] && del[0] != OPEN && ParseArray(src, del).Ok?
    ensures var p := ParseArray(src, del).value;
            && (forall d | d in p.dims :: d > 0 && |p.elems| % d == 0)
            && (|p.dims| == 1 ==> p.dims[0] == |p.elems|)
            && (p.dims == [] ==> p.elems == [])
  {
    var n := Opening(src);
    if !(n < |src| && src[n] == CLOSE) {
      var first := Element(State(n, Zeros(n), [], src[n..]), del, |src|).value;
      var end := After(first, del, |src|).value;
      ClosedDimsArePositive(end);
      if n == 1 {
        assert first.depth == 1 && first.rest != [];
        AfterCounts(first, del, |src|);
      }
    }
  }

  // ----- what an error says -----

  /** `rest` is what is left of `src`. */
  predicate LeftOf(src: bytes, rest: bytes) {
    |rest| <= |src| && rest == src[|src| - |rest|..]
  }

  /** An error about an unexpected byte names a byte of the input and where it is. */
  predicate PointsAt(e: ParseError, src: bytes) {
    e.Unexpected? && e.offset < |src| && src[e.offset] == e.found
  }

  lemma {:induction false} DropStays(src: bytes, rest: bytes, n: nat)
    requires LeftOf(src, rest) && n <= |rest|
    ensures LeftOf(src, rest[n..]) && (rest != [] ==> src[|src| - |rest|] == rest[0])
  {
  }

  lemma {:induction false} QuotedLeaves(src: bytes, s: bytes, elem: bytes, escape: bool)
    requires LeftOf(src, s)
    ensures QuotedBody(s, elem, escape).Some? ==> LeftOf(src, QuotedBody(s, elem, escape).value.1)
    decreases |s|
  {
    if s != [] {
      DropStays(src, s, 1);
      hide LeftOf;
      if escape {
        QuotedLeaves(src, s[1..], elem + [s[0]], false);
      } else if s[0] == BACKSLASH {
        QuotedLeaves(src, s[1..], elem, true);
      } else if s[0] != QUOTE {
        QuotedLeaves(src, s[1..], elem + [s[0]], false);
      }
    }
  }

  lemma {:induction false} ElementErrorPoints(src: bytes, st: State, del: bytes)
    requires st.Sane() && LeftOf(src, st.rest)
    ensures match Element(st, del, |src|)
            case Err(e) => PointsAt(e, src)
            case Ok(next) => LeftOf(src, next.rest)
    decreases |st.rest|
  {
    if st.rest != [] {
      DropStays(src, st.rest, 1);
      DropStays(src, st.rest, |st.rest|);
      DropStays(src, st.rest, BareLength(st.rest, del));
      QuotedLeaves(src, st.rest[1..], [], false);
      hide LeftOf, QuotedBody, BareLength, HasPrefix;
      if st.rest[0] == OPEN && st.depth < |st.dims| {
        ElementErrorPoints(src, State(st.depth + 1, st.dims[st.depth := 0], st.elems, st.rest[1..]), del);
      }
    }
  }

  lemma {:induction false} AfterErrorPoints(src: bytes, st: State, del: bytes)
    requires st.Sane() && LeftOf(src, st.rest) && del != []
    ensures After(st, del, |src|).Err? ==> PointsAt(After(st, del, |src|).error, src)
    decreases |st.rest|
  {
    if st.rest != [] {
      if HasPrefix(st.rest, del) && st.depth > 0 {
        AfterDelimiter(st, del, |src|);
        DropStays(src, st.rest, |del|);
        var next := State(st.depth, st.dims[st.depth - 1 := st.dims[st.depth - 1] + 1], st.elems, st.rest[|del|..]);
        hide LeftOf, Element, HasPrefix, After;
        ElementErrorPoints(src, next, del);
        if Element(next, del, |src|).Ok? {
          AfterErrorPoints(src, Element(next, del, |src|).value, del);
        }
      } else {
        AfterBrace(st, del, |src|);
        DropStays(src, st.rest, 1);
        hide LeftOf, HasPrefix, After;
        if st.rest[0] == CLOSE && st.depth > 0 {
          AfterErrorPoints(src, State(st.depth - 1, st.dims[st.depth - 1 := st.dims[st.depth - 1] + 1], st.elems,
              st.rest[1..]), del);
        }
      }
    } else {
      hide LeftOf;
    }
  }

  lemma {:induction false} ClosingErrorPoints(src: bytes, s: bytes, depth: nat)
    requires LeftOf(src, s)
    ensures Closing(s, depth, |src|).Err? ==> PointsAt(Closing(s, depth, |src|).error, src)
    decreases |s|
  {
    if s != [] {
      DropStays(src, s, 1);
      hide LeftOf;
      if s[0] == CLOSE && depth > 0 {
        ClosingErrorPoints(src, s[1..], depth - 1);
      }
    }
  }

  /**
   Every error tells the truth: a missing opening brace is one, a missing closing brace is reported at the end of
   the input, and an unexpected byte is the one at the place that is named.
   */
  lemma {:induction false} ErrorsTellTheTruth(src: bytes, del: bytes)
    requires del != []
    ensures ParseArray(src, del) == Err(Expected(OPEN, 0)) <==> src == [] || src[0] != OPEN
    ensures match ParseArray(src, del)
            case Err(Expected(b, at)) => (b, at) == (OPEN, 0) || (b, at) == (CLOSE, |src|)
            case Err(Unexpected(b, at)) => at < |src| && src[at] == b
            case _ => true
  {
    if src != [] && src[0] == OPEN {
      var n := Opening(src);
      var st := State(n, Zeros(n), [], src[n..]);
      ClosingErrorPoints(src, src[n..], n);
      ElementErrorPoints(src, st, del);
      hide Closing, Element, After, DimensionsMatch, LeftOf;
      if Element(st, del, |src|).Ok? {
        AfterErrorPoints(src, Element(st, del, |src|).value, del);
      }
    }
  }

  // ----- the grammar of accepted input -----

  /** What the inside of a quoted element stands for; None if it holds a bare quote or ends in a backslash. */
  function Unescaped(body: bytes): Option<bytes> {
    if body == [] then Some([])
    else if body[0] == QUOTE then None
    else if body[0] == BACKSLASH then
      if |body| < 2 then None
      else
        match Unescaped(body[2..])
        case None => None
        case Some(rest) => Some([body[1]] + rest)
    else
      match Unescaped(body[1..])
      case None => None
      case Some(rest) => Some([body[0]] + rest)
  }

  predicate Quoted(text: bytes, e: Option<bytes>) {
    && |text| >= 2 && text[0] == QUOTE && text[|text| - 1] == QUOTE
    && e.Some? && Unescaped(text[1..|text| - 1]) == e
  }

  /** Unquoted text stands for itself, except NULL. */
  predicate Bare(text: bytes, e: Option<bytes>) {
    && text != [] && text[0] != OPEN && text[0] != QUOTE
    && COMMA !in text && CLOSE !in text
    && e == if text == NULL then None else Some(text)
  }

  predicate ElementText(text: bytes, e: Option<bytes>) {
    Quoted(text, e) || Bare(text, e)
  }

  /** The texts separated by commas, then the closing brace. */
  function Listed(texts: seq<bytes>): bytes
    requires texts != []
  {
    if |texts| == 1 then texts[0] + [CLOSE] else texts[0] + ([COMMA] + Listed(texts[1..]))
  }

  ghost predicate Texts(texts: seq<bytes>, elems: seq<Option<bytes>>) {
    |texts| == |elems| && forall k | 0 <= k < |texts| :: ElementText(texts[k], elems[k])
  }

  predicate Nest(src: bytes, n: nat) {
    |src| == 2 * n && (forall k | 0 <= k < n :: src[k] == OPEN) && (forall k | n <= k < 2 * n :: src[k] == CLOSE)
  }

  ghost predicate ListText(src: bytes, texts: seq<bytes>, elems: seq<Option<bytes>>) {
    texts != [] && Texts(texts, elems) && src == [OPEN] + Listed(texts)
  }

  /** `src` stands for `elems`: nested empty braces for no elements, a list of texts for one or more. */
  ghost predicate Denotes(src: bytes, elems: seq<Option<bytes>>) {
    || (elems == [] && exists n: nat :: n >= 1 && Nest(src, n))
    || (exists texts :: ListText(src, texts, elems))
  }

  // ----- quoted and bare elements -----

  lemma Regroup(elem: bytes, b: byte, rest: bytes)
    ensures elem + [b] + rest == elem + ([b] + rest)
  {
  }

  lemma EscapedByte(s: bytes, elem: bytes)
    requires |s| >= 2 && s[0] == BACKSLASH
    ensures QuotedBody(s, elem, false) == QuotedBody(s[2..], elem + [s[1]], false)
  {
    assert s[1..][0] == s[1] && s[1..][1..] == s[2..];
  }

  /** The scan of a quoted body, against the meaning of the body. */
  lemma {:induction false} QuotedBodyReads(body: bytes, tail: bytes, elem: bytes)
    requires Unescaped(body).Some?
    ensures QuotedBody(body + ([QUOTE] + tail), elem, false) == Some((elem + Unescaped(body).value, tail))
    decreases |body|
  {
    var rest := [QUOTE] + tail;
    if body == [] {
      assert body + rest == rest && rest[1..] == tail && elem + [] == elem;
    } else if body[0] == BACKSLASH {
      EscapedByte(body + rest, elem);
      assert (body + rest)[2..] == body[2..] + rest;
      QuotedBodyReads(body[2..], tail, elem + [body[1]]);
      Regroup(elem, body[1], Unescaped(body[2..]).value);
      hide QuotedBody;
    } else {
      assert (body + rest)[1..] == body[1..] + rest;
      assert QuotedBody(body + rest, elem, false) == QuotedBody(body[1..] + rest, elem + [body[0]], false);
      QuotedBodyReads(body[1..], tail, elem + [body[0]]);
      Regroup(elem, body[0], Unescaped(body[1..]).value);
      hide QuotedBody;
    }
  }

  /** A body whose first byte is escaped, or stands for itself. */
  lemma LongerBody(first: bytes, b: byte, body: bytes, rest: bytes, elem: bytes)
    requires first == [BACKSLASH, b] || (first == [b] && b != QUOTE && b != BACKSLASH)
    requires Unescaped(body).Some?
    ensures first + (body + rest) == first + body + rest
    ensures Unescaped(first + body).Some?
    ensures elem + Unescaped(first + body).value == elem + [b] + Unescaped(body).value
  {
    assert (first + body)[|first|..] == body;
    Regroup(elem, b, Unescaped(body).value);
  }

  /** Conversely, a scan that ends has read a body with a meaning. */
  lemma {:induction false} QuotedBodySplits(s: bytes, elem: bytes) returns (body: bytes)
    requires QuotedBody(s, elem, false).Some?
    ensures var (e, tail) := QuotedBody(s, elem, false).value;
            && s == body + ([QUOTE] + tail) && Unescaped(body).Some? && e == elem + Unescaped(body).value
    decreases |s|
  {
    if s[0] == QUOTE {
      body := [];
      assert s == [QUOTE] + s[1..] && elem + [] == elem;
    } else {
      assert s[0] == BACKSLASH ==> s[1..] != [];
      var n := if s[0] == BACKSLASH then 2 else 1;
      if s[0] == BACKSLASH {
        EscapedByte(s, elem);
      }
      assert QuotedBody(s, elem, false) == QuotedBody(s[n..], elem + [s[n - 1]], false);
      hide QuotedBody, Unescaped;
      var inner := QuotedBodySplits(s[n..], elem + [s[n - 1]]);
      body := s[..n] + inner;
      assert s == s[..n] + s[n..];
      LongerBody(s[..n], s[n - 1], inner, [QUOTE] + QuotedBody(s, elem, false).value.1, elem);
    }
  }

  lemma {:induction false} CommaPrefix(s: bytes)
    ensures HasPrefix(s, [COMMA]) <==> s != [] && s[0] == COMMA
  {
    if s != [] {
      assert s[..1] == [s[0]];
    }
  }

  lemma {:induction false} BareLengthIs(text: bytes, tail: bytes)
    requires COMMA !in text && CLOSE !in text && tail != [] && (tail[0] == COMMA || tail[0] == CLOSE)
    ensures BareLength(text + tail, [COMMA]) == |text|
    decreases |text|
  {
    CommaPrefix(text + tail);
    if text != [] {
      assert (text + tail)[0] == text[0] && text[0] in text;
      assert (text + tail)[1..] == text[1..] + tail;
      BareLengthIs(text[1..], tail);
    } else {
      assert text + tail == tail;
    }
  }

  lemma {:induction false} BareLengthStops(s: bytes)
    ensures forall k | 0 <= k < BareLength(s, [COMMA]) :: s[k] != COMMA && s[k] != CLOSE
    decreases |s|
  {
    CommaPrefix(s);
    if s != [] && s[0] != COMMA && s[0] != CLOSE {
      BareLengthStops(s[1..]);
    }
  }

  predicate Ends(tail: bytes) {
    tail != [] && (tail[0] == COMMA || tail[0] == CLOSE)
  }

  /** The parser reads the text of an element as that element. */
  lemma {:induction false} ElementIsRead(st: State, text: bytes, e: Option<bytes>, tail: bytes, total: nat)
    requires st.Sane() && st.rest == text + tail && |st.rest| <= total && ElementText(text, e) && Ends(tail)
    ensures Element(st, [COMMA], total) == Ok(st.(elems := st.elems + [e], rest := tail))
  {
    assert st.rest[0] == text[0];
    if Quoted(text, e) {
      var body := text[1..|text| - 1];
      assert text == [QUOTE] + (body + [QUOTE]);
      assert (text + tail)[1..] == body + ([QUOTE] + tail);
      QuotedBodyReads(body, tail, []);
      assert [] + e.value == e.value;
    } else {
      assert text[0] in text;
      BareLengthIs(text, tail);
      assert st.rest[..|text|] == text && st.rest[|text|..] == tail;
    }
  }

  lemma {:induction false} QuotedTextRead(s: bytes) returns (text: bytes)
    requires s != [] && s[0] == QUOTE && QuotedBody(s[1..], [], false).Some?
    ensures var (elem, tail) := QuotedBody(s[1..], [], false).value;
            Quoted(text, Some(elem)) && s == text + tail
  {
    var body := QuotedBodySplits(s[1..], []);
    var (elem, tail) := QuotedBody(s[1..], [], false).value;
    text := [QUOTE] + body + [QUOTE];
    hide QuotedBody;
    assert text[1..|text| - 1] == body && [] + Unescaped(body).value == Unescaped(body).value;
    assert s == [QUOTE] + s[1..];
    assert [QUOTE] + (body + ([QUOTE] + tail)) == text + tail;
  }

  lemma {:induction false} BareTextRead(s: bytes)
    requires s != [] && s[0] != OPEN && s[0] != QUOTE && BareLength(s, [COMMA]) > 0
    ensures var text := s[..BareLength(s, [COMMA])];
            Bare(text, if text == NULL then None else Some(text)) && s == text + s[|text|..]
  {
    BareLengthStops(s);
    hide BareLength;
  }

  /** Conversely, when the parser reads an element it has read a text that stands for it. */
  lemma {:induction false} ReadElementHasText(st: State, total: nat) returns (text: bytes, e: Option<bytes>)
    requires st.Sane() && st.depth == |st.dims| && st.rest != [] && st.rest[0] != OPEN && |st.rest| <= total
    requires Element(st, [COMMA], total).Ok? && Element(st, [COMMA], total).value.rest != []
    ensures ElementText(text, e) && st.rest == text + Element(st, [COMMA], total).value.rest
    ensures Element(st, [COMMA], total).value == st.(elems := st.elems + [e],
            rest := Element(st, [COMMA], total).value.rest)
  {
    hide QuotedBody, BareLength, Quoted, Bare;
    if st.rest[0] == QUOTE {
      text := QuotedTextRead(st.rest);
      e := Some(QuotedBody(st.rest[1..], [], false).value.0);
    } else {
      BareTextRead(st.rest);
      text := st.rest[..BareLength(st.rest, [COMMA])];
      e := if text == NULL then None else Some(text);
    }
  }

  // ----- lists of elements -----

  lemma OneDimension(dims: seq<nat>, n: nat)
    requires |dims| == 1
    ensures dims[0 := n] == [n]
  {
  }

  lemma {:induction false} AfterComma(st: State, next: State, read: State, total: nat)
    requires st.Sane() && st.depth == |st.dims| == 1 && |st.rest| <= total && st.rest != [] && st.rest[0] == COMMA
    requires next == State(1, [st.dims[0] + 1], st.elems, st.rest[1..]) && Element(next, [COMMA], total) == Ok(read)
    ensures After(st, [COMMA], total) == After(read, [COMMA], total)
  {
    CommaPrefix(st.rest);
    hide Element, HasPrefix, After;
    OneDimension(st.dims, st.dims[0] + 1);
    AfterDelimiter(st, [COMMA], total);
  }

  lemma {:induction false} AfterClose(st: State, total: nat)
    requires st.Sane() && st.depth == |st.dims| == 1 && |st.rest| <= total && st.rest != [] && st.rest[0] == CLOSE
    ensures After(st, [COMMA], total).Ok? <==> st.rest == [CLOSE]
    ensures st.rest == [CLOSE] ==> After(st, [COMMA], total) == Ok(State(0, [st.dims[0] + 1], st.elems, []))
  {
    CommaPrefix(st.rest);
    OneDimension(st.dims, st.dims[0] + 1);
    var closed := State(0, [st.dims[0] + 1], st.elems, st.rest[1..]);
    assert After(st, [COMMA], total) == After(closed, [COMMA], total);
    assert st.rest == [CLOSE] + closed.rest;
  }

  /** After an element, the rest of a list is read to its end. */
  lemma {:induction false} ListIsRead(st: State, texts: seq<bytes>, elems: seq<Option<bytes>>, total: nat)
    requires st.Sane() && st.depth == |st.dims| == 1 && |st.rest| <= total && Texts(texts, elems)
    requires st.rest == RestOfList(texts)
    ensures After(st, [COMMA], total) == Ok(State(0, [st.dims[0] + |texts| + 1], st.elems + elems, []))
    decreases |texts|
  {
    hide After, Element, ElementText, Listed;
    if texts == [] {
      AfterClose(st, total);
      assert st.elems + elems == st.elems;
    } else {
      var next := State(1, [st.dims[0] + 1], st.elems, st.rest[1..]);
      NextInList(texts);
      assert next.rest == texts[0] + RestOfList(texts[1..]);
      ElementIsRead(next, texts[0], elems[0], RestOfList(texts[1..]), total);
      var read := next.(elems := st.elems + [elems[0]], rest := RestOfList(texts[1..]));
      AfterComma(st, next, read, total);
      ListIsRead(read, texts[1..], elems[1..], total);
      OneMore(st.elems, elems[0], elems[1..]);
      FirstAndRest(elems);
    }
  }

  lemma HeadAndTail(s: bytes)
    requires s != []
    ensures s == [s[0]] + s[1..]
  {
  }

  lemma OneMore(elems: seq<Option<bytes>>, e: Option<bytes>, more: seq<Option<bytes>>)
    ensures (elems + [e]) + more == elems + ([e] + more)
  {
  }

  lemma FirstAndRest(elems: seq<Option<bytes>>)
    requires elems != []
    ensures elems == [elems[0]] + elems[1..]
  {
  }

  /** What follows an element when `texts` are still to come. */
  function RestOfList(texts: seq<bytes>): bytes {
    if texts == [] then [CLOSE] else [COMMA] + Listed(texts)
  }

  lemma NextInList(texts: seq<bytes>)
    requires texts != []
    ensures Listed(texts) == texts[0] + RestOfList(texts[1..]) && Ends(RestOfList(texts[1..]))
    ensures RestOfList(texts)[0] == COMMA && RestOfList(texts)[1..] == Listed(texts)
  {
  }

  lemma TextsExtend(text: bytes, e: Option<bytes>, texts: seq<bytes>, elems: seq<Option<bytes>>)
    requires ElementText(text, e) && Texts(texts, elems)
    ensures Texts([text] + texts, [e] + elems) && Listed([text] + texts) == text + RestOfList(texts)
    ensures RestOfList([text] + texts) == [COMMA] + (text + RestOfList(texts))
  {
    hide ElementText;
    NextInList([text] + texts);
    assert ([text] + texts)[1..] == texts;
    forall k | 0 <= k < |[text] + texts|
      ensures ElementText(([text] + texts)[k], ([e] + elems)[k])
    {
      assert k > 0 ==> ([text] + texts)[k] == texts[k - 1] && ([e] + elems)[k] == elems[k - 1];
    }
  }

  /** Conversely, input that is accepted after an element is the rest of a list. */
  lemma {:induction false} AcceptedRestIsList(st: State, total: nat)
    returns (texts: seq<bytes>, elems: seq<Option<bytes>>)
    requires st.Sane() && st.depth == |st.dims| == 1 && |st.rest| <= total
    requires After(st, [COMMA], total).Ok? && After(st, [COMMA], total).value.depth == 0
    ensures Texts(texts, elems) && After(st, [COMMA], total).value.elems == st.elems + elems
    ensures st.rest == RestOfList(texts)
    decreases |st.rest|
  {
    CommaOrClose(st, total);
    assert Texts([], []) && RestOfList([]) == [CLOSE];
    hide After, Element, ElementText, Listed, Texts, RestOfList;
    if st.rest[0] == CLOSE {
      texts, elems := [], [];
      AfterClose(st, total);
      assert st.elems + [] == st.elems;
    } else {
      var next := State(1, [st.dims[0] + 1], st.elems, st.rest[1..]);
      var read := NextElement(st, next, total);
      OnlyElementsGoOn(next, read, total);
      var text, e := ReadElementHasText(next, total);
      var texts', elems' := AcceptedRestIsList(read, total);
      texts, elems := [text] + texts', [e] + elems';
      TextsExtend(text, e, texts', elems');
      HeadAndTail(st.rest);
      OneMore(st.elems, e, elems');
    }
  }

  lemma {:induction false} CommaOrClose(st: State, total: nat)
    requires st.Sane() && st.depth == |st.dims| == 1 && |st.rest| <= total
    requires After(st, [COMMA], total).Ok? && After(st, [COMMA], total).value.depth == 0
    ensures st.rest != [] && (st.rest[0] == COMMA || st.rest[0] == CLOSE)
  {
    CommaPrefix(st.rest);
  }

  lemma {:induction false} NextElement(st: State, next: State, total: nat) returns (read: State)
    requires st.Sane() && st.depth == |st.dims| == 1 && |st.rest| <= total && st.rest != [] && st.rest[0] == COMMA
    requires next == State(1, [st.dims[0] + 1], st.elems, st.rest[1..])
    requires After(st, [COMMA], total).Ok?
    ensures Element(next, [COMMA], total) == Ok(read) && After(st, [COMMA], total) == After(read, [COMMA], total)
  {
    ElementAccepted(st, next, total);
    read := Element(next, [COMMA], total).value;
    AfterComma(st, next, read, total);
  }

  lemma {:induction false} ElementAccepted(st: State, next: State, total: nat)
    requires st.Sane() && st.depth == |st.dims| == 1 && |st.rest| <= total && st.rest != [] && st.rest[0] == COMMA
    requires next == State(1, [st.dims[0] + 1], st.elems, st.rest[1..])
    requires After(st, [COMMA], total).Ok?
    ensures Element(next, [COMMA], total).Ok?
  {
    CommaPrefix(st.rest);
    hide Element, HasPrefix;
    assert st.dims[0 := st.dims[0] + 1] == [st.dims[0] + 1];
  }

  /** Within an open list, input that goes on to be accepted does not end here and does not open a level. */
  lemma {:induction false} OnlyElementsGoOn(next: State, read: State, total: nat)
    requires next.Sane() && next.depth == |next.dims| == 1 && |next.rest| <= total
             && Element(next, [COMMA], total) == Ok(read)
    requires After(read, [COMMA], total).Ok? && After(read, [COMMA], total).value.depth == 0
    ensures next.rest != [] && next.rest[0] != OPEN && read.rest != [] && read.depth == |read.dims| == 1
  {
    CommaPrefix(next.rest);
  }

  // ----- the theorems -----

  lemma {:induction false} ClosingReads(s: bytes, depth: nat, total: nat)
    requires |s| <= total
    ensures Closing(s, depth, total) == Ok(0) <==> |s| == depth && forall k | 0 <= k < |s| :: s[k] == CLOSE
    decreases |s|
  {
    if s != [] && s[0] == CLOSE && depth > 0 {
      ClosingReads(s[1..], depth - 1, total);
      assert s == [CLOSE] + s[1..];
    }
  }

  lemma {:induction false} OpeningIs(s: bytes, m: nat)
    requires m < |s| && s[m] != OPEN && forall k | 0 <= k < m :: s[k] == OPEN
    ensures Opening(s) == m
  {
    if m > 0 {
      OpeningIs(s[1..], m - 1);
    }
  }

  lemma {:induction false} NestIsEmptyArray(src: bytes)
    ensures (exists n: nat :: n >= 1 && Nest(src, n)) <==>
            var n := Opening(src);
            n >= 1 && n < |src| && src[n] == CLOSE && Closing(src[n..], n, |src|) == Ok(0)
  {
    var n := Opening(src);
    ClosingReads(src[n..], n, |src|);
    if n >= 1 && n < |src| && src[n] == CLOSE && Closing(src[n..], n, |src|) == Ok(0) {
      assert forall k | n <= k < |src| :: src[k] == src[n..][k - n];
      assert Nest(src, n);
    }
    if m: nat :| m >= 1 && Nest(src, m) {
      OpeningIs(src, m);
    }
  }

  lemma {:induction false} ListedStarts(texts: seq<bytes>, elems: seq<Option<bytes>>)
    requires texts != [] && Texts(texts, elems)
    ensures Listed(texts) != [] && Listed(texts)[0] == texts[0][0] && texts[0] != []
    ensures Listed(texts)[0] != OPEN && Listed(texts)[0] != CLOSE
  {
    assert ElementText(texts[0], elems[0]);
    assert texts[0][0] in texts[0];
  }

  /** An array that opens one level: the parse is that of its first element and of what follows. */
  lemma {:induction false} OneLevel(src: bytes, start: State, read: State)
    requires |src| >= 2 && src[0] == OPEN && src[1] != OPEN && src[1] != CLOSE
    requires start == State(1, [0], [], src[1..]) && Element(start, [COMMA], |src|) == Ok(read)
    ensures ScanLinear(src).Ok? <==>
            var r := After(read, [COMMA], |src|);
            r.Ok? && r.value.depth == 0 && r.value.dims[0] > 0 && |r.value.elems| % r.value.dims[0] == 0
    ensures ScanLinear(src).Ok? ==> ScanLinear(src).value == After(read, [COMMA], |src|).value.elems
  {
    OpeningIs(src, 1);
    assert Zeros(1) == [0];
    hide Element, After;
    var r := After(read, [COMMA], |src|);
    if r.Ok? && r.value.depth == 0 {
      ClosedDimsArePositive(r.value);
      assert r.value.dims[0] in r.value.dims;
      assert forall d | d in r.value.dims :: d == r.value.dims[0];
    }
  }

  lemma TextsShrink(texts: seq<bytes>, elems: seq<Option<bytes>>)
    requires texts != [] && Texts(texts, elems)
    ensures elems != [] && ElementText(texts[0], elems[0]) && Texts(texts[1..], elems[1..]) && |texts| == |elems|
  {
    hide ElementText;
  }

  /** The input is an open brace and a list: the parser starts right after the brace. */
  lemma ListStart(src: bytes, texts: seq<bytes>, elems: seq<Option<bytes>>)
    requires ListText(src, texts, elems)
    ensures |src| >= 2 && src[0] == OPEN && src[1] != OPEN && src[1] != CLOSE
    ensures src[1..] == texts[0] + RestOfList(texts[1..]) && Ends(RestOfList(texts[1..]))
    ensures Texts(texts, elems) && texts != []
  {
    ListedStarts(texts, elems);
    NextInList(texts);
    hide ElementText, Listed, RestOfList, Texts;
    assert src[1..] == Listed(texts) && src[1] == Listed(texts)[0];
  }

  lemma DividesItself(n: nat)
    requires n > 0
    ensures n % n == 0
  {
  }

  lemma {:induction false} ListIsAccepted(src: bytes, texts: seq<bytes>, elems: seq<Option<bytes>>)
    requires ListText(src, texts, elems)
    ensures ScanLinear(src) == Ok(elems)
  {
    hide After, Element, ElementText, ScanLinear, RestOfList, Texts, ListText, Listed, HasPrefix;
    ListStart(src, texts, elems);
    TextsShrink(texts, elems);
    var start := State(1, [0], [], src[1..]);
    ElementIsRead(start, texts[0], elems[0], RestOfList(texts[1..]), |src|);
    var read := State(1, [0], [elems[0]], RestOfList(texts[1..]));
    assert [] + [elems[0]] == [elems[0]] && Element(start, [COMMA], |src|) == Ok(read);
    OneLevel(src, start, read);
    FirstAndRest(elems);
    ListIsRead(read, texts[1..], elems[1..], |src|);
    assert After(read, [COMMA], |src|) == Ok(State(0, [|elems|], elems, []));
    DividesItself(|elems|);
  }

  lemma {:induction false} AcceptedListIsDenoted(src: bytes)
    requires ScanLinear(src).Ok? && |src| >= 2 && src[0] == OPEN && src[1] != OPEN && src[1] != CLOSE
    requires Element(State(1, [0], [], src[1..]), [COMMA], |src|).Ok?
    ensures exists texts :: ListText(src, texts, ScanLinear(src).value)
  {
    var start := State(1, [0], [], src[1..]);
    var read := Element(start, [COMMA], |src|).value;
    OneLevel(src, start, read);
    OnlyElementsGoOn(start, read, |src|);
    hide After, Element, ElementText, Listed, ScanLinear, Texts, RestOfList;
    var text, e := ReadElementHasText(start, |src|);
    var texts', elems' := AcceptedRestIsList(read, |src|);
    TextsExtend(text, e, texts', elems');
    HeadAndTail(src);
    assert [] + [e] == [e];
    assert ListText(src, [text] + texts', [e] + elems');
  }

  /** Accepted input opens one level and starts an element there, or consists of nested braces. */
  lemma {:induction false} AcceptedOpensOneLevel(src: bytes)
    requires ScanLinear(src).Ok? && !(Opening(src) < |src| && src[Opening(src)] == CLOSE)
    ensures |src| >= 2 && src[0] == OPEN && src[1] != OPEN && src[1] != CLOSE
    ensures Element(State(1, [0], [], src[1..]), [COMMA], |src|).Ok?
  {
    var n := Opening(src);
    assert Zeros(1) == [0];
    hide Element, After;
    assert n == 1;
    NothingAfterOpening(src);
  }

  lemma {:induction false} NothingAfterOpening(src: bytes)
    ensures |src| == 1 && src[0] == OPEN ==> ScanLinear(src).Err?
  {
    assert |src| == 1 && src[0] == OPEN ==> src == [OPEN];
  }

  lemma {:induction false} AcceptedIsDenoted(src: bytes)
    requires ScanLinear(src).Ok?
    ensures Denotes(src, ScanLinear(src).value)
  {
    var n := Opening(src);
    if n < |src| && src[n] == CLOSE {
      NestIsEmptyArray(src);
    } else {
      AcceptedOpensOneLevel(src);
      hide ScanLinear, Element;
      AcceptedListIsDenoted(src);
    }
  }

  /** The parser accepts exactly the texts of the grammar, and returns what they stand for. */
  lemma {:induction false} ScanLinearIff(src: bytes, elems: seq<Option<bytes>>)
    ensures ScanLinear(src) == Ok(elems) <==> Denotes(src, elems)
  {
    if ScanLinear(src) == Ok(elems) {
      AcceptedIsDenoted(src);
    }
    if Denotes(src, elems) {
      if texts :| ListText(src, texts, elems) {
        ListIsAccepted(src, texts, elems);
      } else {
        NestIsEmptyArray(src);
      }
    }
  }

  // ----- the server's output -----

  predicate IsSpace(c: byte) {
    c == 32 || 9 <= c <= 13
  }

  function Lower(c: byte): byte {
    if 65 <= c <= 90 then c + 32 else c
  }

  predicate SpellsNull(s: bytes) {
    |s| == 4 && Lower(s[0]) == 110 && Lower(s[1]) == 117 && Lower(s[2]) == 108 && Lower(s[3]) == 108
  }

  predicate Special(c: byte) {
    c == OPEN || c == CLOSE || c == COMMA || c == QUOTE || c == BACKSLASH || IsSpace(c)
  }

  /** Empty strings, strings that spell NULL and strings with special characters are quoted. */
  predicate NeedsQuotes(s: bytes) {
    s == [] || SpellsNull(s) || exists c | c in s :: Special(c)
  }

  function Escaped(s: bytes): bytes {
    if s == [] then []
    else (if s[0] == QUOTE || s[0] == BACKSLASH then [BACKSLASH, s[0]] else [s[0]]) + Escaped(s[1..])
  }

  function PrintElement(e: Option<bytes>): bytes {
    match e
    case None => NULL
    case Some(s) => if NeedsQuotes(s) then [QUOTE] + Escaped(s) + [QUOTE] else s
  }

  function PrintElements(elems: seq<Option<bytes>>): seq<bytes> {
    seq(|elems|, k requires 0 <= k < |elems| => PrintElement(elems[k]))
  }

  function Print(elems: seq<Option<bytes>>): bytes {
    if elems == [] then [OPEN, CLOSE] else [OPEN] + Listed(PrintElements(elems))
  }

  lemma {:induction false} EscapedReadsBack(s: bytes)
    ensures Unescaped(Escaped(s)) == Some(s)
  {
    if s != [] {
      EscapedReadsBack(s[1..]);
      var escaped := Escaped(s);
      if s[0] == QUOTE || s[0] == BACKSLASH {
        assert escaped[2..] == Escaped(s[1..]);
      } else {
        assert escaped[1..] == Escaped(s[1..]);
      }
      assert s == [s[0]] + s[1..];
    }
  }

  lemma {:induction false} PrintedElementIsText(e: Option<bytes>)
    ensures ElementText(PrintElement(e), e)
  {
    match e
    case None => assert COMMA !in NULL && CLOSE !in NULL;
    case Some(s) =>
      if NeedsQuotes(s) {
        EscapedReadsBack(s);
        assert PrintElement(e)[1..|PrintElement(e)| - 1] == Escaped(s);
      } else {
        assert s[0] in s && SpellsNull(NULL);
        assert forall c | c in s :: !Special(c);
      }
  }

  /** Printing any list with the server's rules and parsing it gives the list back, NULLs included. */
  lemma {:induction false} PrintThenScan(elems: seq<Option<bytes>>)
    ensures ScanLinear(Print(elems)) == Ok(elems)
  {
    if elems == [] {
      assert Nest(Print(elems), 1);
      ScanLinearIff(Print(elems), elems);
    } else {
      var texts := PrintElements(elems);
      forall k | 0 <= k < |texts|
        ensures ElementText(texts[k], elems[k])
      {
        PrintedElementIsText(elems[k]);
      }
      ListIsAccepted(Print(elems), texts, elems);
    }
  }
}
