/** The array parser as a loop over indexes into the text, and the scan into a string array variable. */
module StringArrayParser {
  import opened Wrappers
  import opened StringArrays

  lemma DropOne(src: bytes, i: nat)
    requires i < |src|
    ensures src[i..] != [] && src[i..][0] == src[i] && src[i..][1..] == src[i + 1..]
  {
  }

  lemma DropMany(src: bytes, i: nat, n: nat)
    requires i + n <= |src|
    ensures src[i..][n..] == src[i + n..] && src[i..][..n] == src[i..i + n]
  {
  }

  /** The case of a quote at `i`: append bytes until the closing quote; None when the text ends first. */
  method ScanQuoted(src: bytes, start: nat) returns (elem: Option<bytes>, i: nat)
    requires start <= |src|
    ensures i <= |src|
    ensures match QuotedBody(src[start..], [], false)
            case None => elem == None && i == |src|
            case Some((e, rest)) => elem == Some(e) && rest == src[i..]
  {
    var bytes' := [];
    var escape := false;
    i := start;
    while i < |src|
      invariant start <= i <= |src|
      invariant QuotedBody(src[i..], bytes', escape) == QuotedBody(src[start..], [], false)
    {
      DropOne(src, i);
      if escape {
        bytes' := bytes' + [src[i]];
        escape := false;
      } else if src[i] == BACKSLASH {
        escape := true;
      } else if src[i] == QUOTE {
        return Some(bytes'), i + 1;
      } else {
        bytes' := bytes' + [src[i]];
      }
      i := i + 1;
    }
    return None, i;
  }

  /** The default case: move to the delimiter, the closing brace or the end. */
  method ScanBare(src: bytes, del: bytes, start: nat) returns (i: nat)
    requires start <= |src|
    ensures i == start + BareLength(src[start..], del)
  {
    i := start;
    while i < |src|
      invariant start <= i <= |src|
      invariant i + BareLength(src[i..], del) == start + BareLength(src[start..], del)
    {
      DropOne(src, i);
      if HasPrefix(src[i..], del) || src[i] == CLOSE {
        return;
      }
      i := i + 1;
    }
  }

  // ----- the parser's functions, one step at a time -----

  /** `st` is what the variables of the parser stand for. */
  ghost predicate Stands(st: State, depth: nat, dims: seq<nat>, elems: seq<Option<bytes>>, src: bytes, i: nat) {
    i <= |src| && st == State(depth, dims, elems, src[i..]) && st.Sane()
  }

  lemma {:induction false} ElementOpens(st: State, del: bytes, total: nat)
    requires st.Sane() && |st.rest| <= total && st.rest != [] && st.rest[0] == OPEN
    ensures st.depth < |st.dims| ==>
              var next := State(st.depth + 1, st.dims[st.depth := 0], st.elems, st.rest[1..]);
              next.Sane() && Element(st, del, total) == Element(next, del, total)
    ensures st.depth == |st.dims| ==> Element(st, del, total) == Ok(st)
  {
  }

  lemma {:induction false} ElementQuoted(st: State, del: bytes, total: nat)
    requires st.Sane() && |st.rest| <= total && st.rest != [] && st.rest[0] == QUOTE
    ensures Element(st, del, total)
            == match QuotedBody(st.rest[1..], [], false)
               case None => Ok(st.(rest := []))
               case Some((elem, rest)) => Ok(st.(elems := st.elems + [Some(elem)], rest := rest))
  {
  }

  lemma {:induction false} ElementBare(st: State, del: bytes, total: nat)
    requires st.Sane() && |st.rest| <= total && st.rest != [] && st.rest[0] != OPEN && st.rest[0] != QUOTE
    ensures var n := BareLength(st.rest, del);
            Element(st, del, total)
            == if n == |st.rest| then Ok(st.(rest := []))
               else if n == 0 then Err(Unexpected(st.rest[0], total - |st.rest|))
               else Ok(st.(elems := st.elems + [if st.rest[..n] == NULL then None else Some(st.rest[..n])],
                   rest := st.rest[n..]))
  {
  }

  // ----- the loops -----

  /** Opening braces, as many as there are dimensions. */
  method ScanOpening(src: bytes, del: bytes, dims: array<nat>, depth0: nat, start: nat,
      ghost elems: seq<Option<bytes>>, ghost st0: State)
    returns (depth: nat, i: nat, ghost st: State)
    requires Stands(st0, depth0, dims[..], elems, src, start)
    modifies dims
    ensures Stands(st, depth, dims[..], elems, src, i)
    ensures Element(st, del, |src|) == Element(st0, del, |src|)
    ensures i < |src| && src[i] == OPEN ==> depth == dims.Length
  {
    depth, i, st := depth0, start, st0;
    hide Element;
    while i < |src| && src[i] == OPEN && depth < dims.Length
      invariant Stands(st, depth, dims[..], elems, src, i)
      invariant Element(st, del, |src|) == Element(st0, del, |src|)
      decreases |src| - i
    {
      DropOne(src, i);
      ElementOpens(st, del, |src|);
      ghost var before := dims[..];
      depth := depth + 1;
      dims[depth - 1] := 0;
      assert dims[..] == before[depth - 1 := 0];
      i := i + 1;
      st := State(depth, dims[..], elems, src[i..]);
    }
  }

  /** An element that is not a nested array. */
  method ScanValue(src: bytes, del: bytes, elems0: seq<Option<bytes>>, start: nat, ghost st0: State)
    returns (elems: seq<Option<bytes>>, i: nat, error: Option<ParseError>)
    requires start < |src| && src[start] != OPEN && Stands(st0, st0.depth, st0.dims, elems0, src, start)
    ensures i <= |src|
    ensures match Element(st0, del, |src|)
            case Err(e) => error == Some(e)
            case Ok(next) => error == None && Stands(next, st0.depth, st0.dims, elems, src, i)
  {
    elems, i, error := elems0, start, None;
    DropOne(src, i);
    hide Element, QuotedBody, BareLength, HasPrefix;
    if src[i] == QUOTE {
      ElementQuoted(st0, del, |src|);
      var elem, next := ScanQuoted(src, i + 1);
      i := next;
      if elem.Some? {
        elems := elems + [elem];
      }
    } else {
      ElementBare(st0, del, |src|);
      var next := ScanBare(src, del, i);
      DropMany(src, i, next - i);
      assert next == i + BareLength(st0.rest, del);
      if next < |src| {
        if next == i {
          error := Some(Unexpected(src[i], i));
          return;
        }
        var elem := src[i..next];
        elems := elems + [if elem == NULL then None else Some(elem)];
      }
      i := next;
    }
  }

  /** The loop labelled `Element`. */
  method ScanElement(src: bytes, del: bytes, dims: array<nat>, depth0: nat, elems0: seq<Option<bytes>>, start: nat,
      ghost st0: State)
    returns (depth: nat, elems: seq<Option<bytes>>, i: nat, error: Option<ParseError>, ghost st: State)
    requires Stands(st0, depth0, dims[..], elems0, src, start)
    modifies dims
    ensures match Element(st0, del, |src|)
            case Err(e) => error == Some(e)
            case Ok(next) => error == None && st == next && Stands(st, depth, dims[..], elems, src, i)
  {
    elems, error := elems0, None;
    hide Element;
    depth, i, st := ScanOpening(src, del, dims, depth0, start, elems0, st0);
    if i == |src| {
      ElementEnds(st, del, |src|);
      return;
    }
    DropOne(src, i);
    if src[i] == OPEN {
      ElementOpens(st, del, |src|);
      return;
    }
    elems, i, error := ScanValue(src, del, elems, i, st);
    st := State(depth, dims[..], elems, src[i..]);
  }

  lemma {:induction false} ElementEnds(st: State, del: bytes, total: nat)
    requires st.Sane() && |st.rest| <= total && st.rest == []
    ensures Element(st, del, total) == Ok(st)
    ensures del != [] ==> After(st, del, total) == Ok(st)
  {
  }

  /** The loop after an element, with its jumps back to `Element`. */
  method ScanRest(src: bytes, del: bytes, dims: array<nat>, depth0: nat, elems0: seq<Option<bytes>>, start: nat,
      ghost st0: State)
    returns (depth: nat, elems: seq<Option<bytes>>, error: Option<ParseError>)
    requires del != [] && Stands(st0, depth0, dims[..], elems0, src, start)
    modifies dims
    ensures match After(st0, del, |src|)
            case Err(e) => error == Some(e)
            case Ok(st) => error == None && Stands(st, depth, dims[..], elems, src, |src|)
  {
    depth, elems, error := depth0, elems0, None;
    var i := start;
    ghost var st := st0;
    hide Element, After;
    while i < |src|
      invariant Stands(st, depth, dims[..], elems, src, i) && error == None
      invariant After(st, del, |src|) == After(st0, del, |src|)
      decreases |src| - i
    {
      DropOne(src, i);
      ghost var before := dims[..];
      if HasPrefix(src[i..], del) && depth > 0 {
        AfterDelimiter(st, del, |src|);
        DropMany(src, i, |del|);
        dims[depth - 1] := dims[depth - 1] + 1;
        assert dims[..] == before[depth - 1 := before[depth - 1] + 1];
        i := i + |del|;
        st := State(depth, dims[..], elems, src[i..]);
        depth, elems, i, error, st := ScanElement(src, del, dims, depth, elems, i, st);
        if error.Some? {
          return;
        }
      } else {
        AfterBrace(st, del, |src|);
        if src[i] == CLOSE && depth > 0 {
          dims[depth - 1] := dims[depth - 1] + 1;
          assert dims[..] == before[depth - 1 := before[depth - 1] + 1];
          depth, i := depth - 1, i + 1;
          st := State(depth, dims[..], elems, src[i..]);
        } else {
          return depth, elems, Some(Unexpected(src[i], i));
        }
      }
    }
    ElementEnds(st, del, |src|);
  }

  /** The loop labelled `Close`. */
  method CloseLevels(src: bytes, start: nat, depth0: nat) returns (depth: nat, error: Option<ParseError>)
    requires start <= |src|
    ensures match Closing(src[start..], depth0, |src|)
            case Err(e) => error == Some(e)
            case Ok(d) => error == None && d == depth
  {
    depth, error := depth0, None;
    var i := start;
    while i < |src|
      invariant start <= i <= |src| && error == None
      invariant Closing(src[i..], depth, |src|) == Closing(src[start..], depth0, |src|)
    {
      DropOne(src, i);
      if src[i] == CLOSE && depth > 0 {
        depth, i := depth - 1, i + 1;
      } else {
        return depth, Some(Unexpected(src[i], i));
      }
    }
  }

  /** The check of the dimensions at the end; no divisor is zero. */
  method CheckDimensions(dims: seq<nat>, n: nat) returns (ok: bool)
    requires forall d | d in dims :: d > 0
    ensures ok == DimensionsMatch(dims, n)
  {
    ok := true;
    assert forall k | 0 <= k < |dims| :: dims[k] in dims;
    for k := 0 to |dims|
      invariant ok <==> forall j | 0 <= j < k :: n % dims[j] == 0
    {
      if n % dims[k] != 0 {
        ok := false;
      }
    }
    if ok {
      forall d | d in dims
        ensures n % d == 0
      {
        var j :| 0 <= j < |dims| && dims[j] == d;
      }
    }
  }

  /** `parseArray`: the loops between the labels `Open`, `Element` and `Close`. */
  method Parse(src: bytes, del: bytes) returns (dims: seq<nat>, elems: seq<Option<bytes>>, error: Option<ParseError>)
    requires del != []
    ensures match ParseArray(src, del)
            case Err(e) => error == Some(e)
            case Ok(p) => error == None && p == Parsed(dims, elems)
  {
    dims, elems, error := [], [], None;
    if |src| < 1 || src[0] != OPEN {
      return dims, elems, Some(Expected(OPEN, 0));
    }
    var depth, i := 0, 0;
    while i < |src| && src[i] == OPEN
      invariant i <= |src| && depth == i && i + Opening(src[i..]) == Opening(src)
    {
      DropOne(src, i);
      depth, i := depth + 1, i + 1;
    }
    assert i == Opening(src);
    hide Element, After, Opening;
    if i < |src| && src[i] == CLOSE {
      depth, error := CloseLevels(src, i, depth);
      if error.None? && depth > 0 {
        error := Some(Expected(CLOSE, |src|));
      }
      return;
    }
    var counts := new nat[i](_ => 0);
    ghost var st := State(i, Zeros(i), [], src[i..]);
    assert counts[..] == Zeros(i);
    depth, elems, i, error, st := ScanElement(src, del, counts, depth, elems, i, st);
    if error.Some? {
      return;
    }
    depth, elems, error := ScanRest(src, del, counts, depth, elems, i, st);
    if error.Some? {
      return;
    }
    dims := counts[..];
    if depth > 0 {
      return dims, elems, Some(Expected(CLOSE, |src|));
    }
    ClosedDimsArePositive(State(depth, dims, elems, []));
    var ok := CheckDimensions(dims, |elems|);
    if !ok {
      error := Some(Mismatch);
    }
  }

  /** `scanLinearArray` for text arrays. */
  method ScanLinearArray(src: bytes) returns (result: Result<seq<Option<bytes>>, LinearError>)
    ensures result == ScanLinear(src)
  {
    var dims, elems, error := Parse(src, [COMMA]);
    if error.Some? {
      return Err(Malformed(error.value));
    }
    if |dims| > 1 {
      return Err(NotLinear(dims));
    }
    return Ok(elems);
  }

  datatype ScanError = NotAnArray(error: LinearError) | NullElement(index: nat)

  /** A variable of the string array type; None is Go's nil slice. */
  class StringArrayVariable {
    var value: Option<seq<bytes>>

    constructor (value: Option<seq<bytes>>)
      ensures this.value == value
    {
      this.value := value;
    }

    /**
     `scanBytes`. It succeeds exactly when the text is an array without NULL elements, and then the
     variable holds the elements; otherwise the variable is left alone.
     */
    method ScanBytes(src: bytes) returns (error: Option<ScanError>)
      modifies this
      ensures error.None? <==> exists strings :: Strings(src, strings)
      ensures error.None? ==> value.Some? && Strings(src, value.value)
      ensures error.Some? ==> value == old(value)
      ensures forall k: nat | error == Some(NullElement(k)) ::
              ScanLinear(src).Ok? && k < |ScanLinear(src).value| && ScanLinear(src).value[k].None?
    {
      var scanned := ScanLinearArray(src);
      if scanned.Err? {
        return Some(NotAnArray(scanned.error));
      }
      var elems := scanned.value;
      if value.Some? && |elems| == 0 {
        value := Some([]);
        assert Strings(src, []);
        return None;
      }
      var b: seq<bytes> := [];
      for k := 0 to |elems|
        invariant |b| == k && forall j | 0 <= j < k :: elems[j] == Some(b[j])
        invariant value == old(value)
      {
        assert forall strings | Strings(src, strings) :: elems[k] == Some(strings[k]);
        if elems[k].None? {
          return Some(NullElement(k));
        }
        b := b + [elems[k].value];
      }
      value := Some(b);
      assert Strings(src, b);
      return None;
    }
  }

  /** `src` is accepted as the array of these strings. */
  ghost predicate Strings(src: bytes, strings: seq<bytes>) {
    match ScanLinear(src)
    case Err(_) => false
    case Ok(elems) => |elems| == |strings| && forall k | 0 <= k < |elems| :: elems[k] == Some(strings[k])
  }

  /** The strings a text stands for, by the grammar; printing them gives a text that scans back to them. */
  lemma {:induction false} StringsRoundTrip(strings: seq<bytes>)
    ensures Strings(Print(seq(|strings|, k requires 0 <= k < |strings| => Some(strings[k]))), strings)
  {
    PrintThenScan(seq(|strings|, k requires 0 <= k < |strings| => Some(strings[k])));
  }
}
