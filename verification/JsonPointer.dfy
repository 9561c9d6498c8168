/** resolve_pointer, against the syntax and evaluation rules of sections 3 and 4 of RFC 6901. */
module JsonPointer {
  import opened Json
  import opened Text
  import opened Wrappers

  // ---------------------------------------------------------------- tokens and their escaping

  /** s.replace("~d", c): left to right, without overlap. */
  function ReplaceTilde(s: string, d: char, c: char): string {
    if s == "" then ""
    else if |s| >= 2 && s[0] == '~' && s[1] == d then [c] + ReplaceTilde(s[2..], d, c)
    else [s[0]] + ReplaceTilde(s[1..], d, c)
  }

  /** token.replace("~1", "/").replace("~0", "~") */
  function Unescape(token: string): string {
    ReplaceTilde(ReplaceTilde(token, '1', '/'), '0', '~')
  }

  /** RFC 6901, section 3: '~' is written ~0 and '/' is written ~1. */
  function Escape(text: string): string {
    if text == "" then ""
    else (if text[0] == '~' then "~0" else if text[0] == '/' then "~1" else [text[0]]) + Escape(text[1..])
  }

  lemma ReplaceOther(h: char, s: string, d: char, c: char)
    requires h != '~'
    ensures ReplaceTilde([h] + s, d, c) == [h] + ReplaceTilde(s, d, c)
  {
    assert ([h] + s)[1..] == s;
  }

  lemma ReplacePair(e: char, s: string, d: char, c: char)
    ensures ReplaceTilde(['~', e] + s, d, c) ==
              if e == d then [c] + ReplaceTilde(s, d, c) else ['~'] + ReplaceTilde([e] + s, d, c)
  {
    assert (['~', e] + s)[2..] == s && (['~', e] + s)[1..] == [e] + s;
  }

  lemma {:induction false} UnescapeEscape(text: string)
    ensures Unescape(Escape(text)) == text
  {
    if text != "" {
      var c, rest := text[0], Escape(text[1..]);
      var inner := ReplaceTilde(rest, '1', '/');
      UnescapeEscape(text[1..]);
      assert text == [c] + text[1..];
      if c == '~' {
        ReplacePair('0', rest, '1', '/');
        ReplaceOther('0', rest, '1', '/');
        assert ReplaceTilde(Escape(text), '1', '/') == ['~', '0'] + inner;
        ReplacePair('0', inner, '0', '~');
      } else if c == '/' {
        ReplacePair('1', rest, '1', '/');
        ReplaceOther('/', inner, '0', '~');
      } else {
        ReplaceOther(c, rest, '1', '/');
        ReplaceOther(c, inner, '0', '~');
      }
    }
  }

  lemma {:induction false} EscapeHasNoSlash(text: string)
    ensures '/' !in Escape(text)
  {
    if text != "" {
      EscapeHasNoSlash(text[1..]);
    }
  }

  // ---------------------------------------------------------------- array indexes

  predicate Digit(c: char) { '0' <= c <= '9' }

  function DigitValue(c: char): nat
    requires Digit(c)
  {
    c as int - '0' as int
  }

  /** re.fullmatch(r"0|[1-9][0-9]*", token) */
  predicate IsIndex(token: string) {
    token == "0" || (token != "" && token[0] != '0' && forall i :: 0 <= i < |token| ==> Digit(token[i]))
  }

  /** int(token) */
  function ToNat(digits: string): nat
    requires forall i :: 0 <= i < |digits| ==> Digit(digits[i])
  {
    if digits == "" then 0
    else 10 * ToNat(digits[..|digits| - 1]) + DigitValue(digits[|digits| - 1])
  }

  function Decimal(n: nat): (digits: string)
    ensures digits != "" && forall i :: 0 <= i < |digits| ==> Digit(digits[i])
    ensures IsIndex(digits)
    ensures n > 0 ==> digits[0] != '0'
  {
    var last := [('0' as int + n % 10) as char];
    if n < 10 then last else Decimal(n / 10) + last
  }

  lemma {:induction false} DecimalToNat(n: nat)
    ensures ToNat(Decimal(n)) == n
  {
    var digits := Decimal(n);
    if n >= 10 {
      DecimalToNat(n / 10);
      assert digits[..|digits| - 1] == Decimal(n / 10);
    } else {
      assert digits[..0] == "";
    }
  }

  lemma {:induction false} ToNatPositive(digits: string)
    requires digits != "" && digits[0] != '0' && forall i :: 0 <= i < |digits| ==> Digit(digits[i])
    ensures ToNat(digits) > 0
  {
    if |digits| > 1 {
      ToNatPositive(digits[..|digits| - 1]);
    }
  }

  /** An index has one spelling: the pattern admits no leading zero. */
  lemma {:induction false} IndexIsDecimal(token: string)
    requires IsIndex(token)
    ensures Decimal(ToNat(token)) == token
  {
    var init, last := token[..|token| - 1], token[|token| - 1];
    assert token == init + [last];
    if init != "" {
      ToNatPositive(init);
      IndexIsDecimal(init);
      assert ToNat(token) / 10 == ToNat(init) && ToNat(token) % 10 == DigitValue(last);
    } else {
      assert ToNat(token) == DigitValue(last);
    }
  }

  // ---------------------------------------------------------------- paths in a document

  datatype Step = Key(key: string) | Index(index: nat)
  {
    function Text(): string {
      match this
      case Key(k) => k
      case Index(i) => Decimal(i)
    }
  }

  /** One step from a value to a member of it. */
  function Child(doc: Json, step: Step): Option<Json> {
    match (doc, step)
    case (Obj(fields), Key(k)) => if k in fields then Some(fields[k]) else None
    case (List(items), Index(i)) => if i < |items| then Some(items[i]) else None
    case _ => None
  }

  /** The value at the end of a path. */
  function At(doc: Json, path: seq<Step>): Option<Json>
    decreases |path|
  {
    if path == [] then Some(doc)
    else
      match Child(doc, path[0])
      case None => None
      case Some(child) => At(child, path[1..])
  }

  function Texts(path: seq<Step>): seq<string> {
    seq(|path|, i requires 0 <= i < |path| => path[i].Text())
  }

  function Escapes(path: seq<Step>): seq<string> {
    seq(|path|, i requires 0 <= i < |path| => Escape(path[i].Text()))
  }

  function Join(parts: seq<string>): string {
    if parts == [] then "" else "/" + (parts[0] + Join(parts[1..]))
  }

  /** The JSON Pointer that names a path. */
  function Print(path: seq<Step>): string { Join(Escapes(path)) }

  lemma {:induction false} SplitJoin(parts: seq<string>)
    requires forall i :: 0 <= i < |parts| ==> '/' !in parts[i]
    ensures Split(Join(parts), '/') == [""] + parts
  {
    if parts != [] {
      var rest := Join(parts[1..]);
      SplitJoin(parts[1..]);
      SplitText(parts[0], rest);
      SplitSlash(parts[0] + rest);
      assert ([""] + parts[1..])[1..] == parts[1..];
      assert [parts[0]] + parts[1..] == parts;
    }
  }

  lemma SplitSlash(s: string)
    ensures Split("/" + s, '/') == [""] + Split(s, '/')
  {
    assert ("/" + s)[1..] == s;
  }

  lemma SplitText(text: string, rest: string)
    requires '/' !in text && (rest == "" || rest[0] == '/')
    ensures Split(text + rest, '/') == [text] + Split(rest, '/')[1..]
  {
    if rest == "" {
      assert text + rest == text;
      SplitNone(text, '/');
    } else {
      assert text + rest == text + ['/'] + rest[1..];
      SplitPrefix(text, rest[1..], '/');
    }
  }

  // ---------------------------------------------------------------- resolution

  function Follow(current: Json, token: string): Option<Json> {
    if current.Obj? && token in current.fields then Some(current.fields[token])
    else if current.List? && IsIndex(token) && ToNat(token) < |current.items| then Some(current.items[ToNat(token)])
    else None
  }

  function FollowAll(current: Json, tokens: seq<string>): Option<Json>
    decreases |tokens|
  {
    if tokens == [] then Some(current)
    else
      match Follow(current, tokens[0])
      case None => None
      case Some(next) => FollowAll(next, tokens[1..])
  }

  function Unescaped(parts: seq<string>): seq<string> {
    seq(|parts|, i requires 0 <= i < |parts| => Unescape(parts[i]))
  }

  function Tokens(pointer: string): seq<string> { Unescaped(Split(pointer, '/')[1..]) }

  /** None stands for the ValueError of a pointer that does not resolve. */
  method ResolvePointer(document: Json, pointer: string) returns (r: Option<Json>)
    ensures r == FollowAll(document, Tokens(pointer))
  {
    var current := document;
    var parts := Split(pointer, '/')[1..];
    for i := 0 to |parts|
      invariant FollowAll(document, Unescaped(parts)) == FollowAll(current, Unescaped(parts)[i..])
    {
      var token := ReplaceTilde(ReplaceTilde(parts[i], '1', '/'), '0', '~');
      assert Unescaped(parts)[i..][0] == token && Unescaped(parts)[i..][1..] == Unescaped(parts)[i + 1..];
      if current.Obj? && token in current.fields {
        current := current.fields[token];
      } else if current.List? && IsIndex(token) && ToNat(token) < |current.items| {
        current := current.items[ToNat(token)];
      } else {
        return None;
      }
    }
    return Some(current);
  }

  /** Following a token is taking the one step that the token spells. */
  lemma FollowIsChild(current: Json, step: Step)
    requires Child(current, step).Some?
    ensures Follow(current, step.Text()) == Child(current, step)
  {
    if step.Index? {
      DecimalToNat(step.index);
    }
  }

  lemma {:induction false} FollowsPath(doc: Json, path: seq<Step>)
    requires At(doc, path).Some?
    ensures FollowAll(doc, Texts(path)) == At(doc, path)
    decreases |path|
  {
    if path != [] {
      FollowIsChild(doc, path[0]);
      FollowsPath(Child(doc, path[0]).value, path[1..]);
      assert Texts(path)[1..] == Texts(path[1..]);
    }
  }

  lemma TokensOfPrint(path: seq<Step>)
    ensures Tokens(Print(path)) == Texts(path)
  {
    forall i | 0 <= i < |path| ensures '/' !in Escapes(path)[i] && Unescape(Escapes(path)[i]) == path[i].Text() {
      EscapeHasNoSlash(path[i].Text());
      UnescapeEscape(path[i].Text());
    }
    SplitJoin(Escapes(path));
  }

  /**
   * Resolution inverts printing: the escaped JSON Pointer of any path in any document leads to the value at that path.
   */
  lemma ResolveInvertsPrint(doc: Json, path: seq<Step>)
    requires At(doc, path).Some?
    ensures FollowAll(doc, Tokens(Print(path))) == At(doc, path)
  {
    TokensOfPrint(path);
    FollowsPath(doc, path);
  }

  /** A resolved row of tokens spells a path of the document; resolution never invents a value. */
  lemma {:induction false} ResolvedIsPath(doc: Json, tokens: seq<string>) returns (path: seq<Step>)
    requires FollowAll(doc, tokens).Some?
    ensures At(doc, path) == FollowAll(doc, tokens) && Texts(path) == tokens
    decreases |tokens|
  {
    if tokens == [] {
      path := [];
    } else {
      var step := FollowIsStep(doc, tokens[0]);
      var rest := ResolvedIsPath(Follow(doc, tokens[0]).value, tokens[1..]);
      path := [step] + rest;
      assert path[1..] == rest;
      assert tokens == [tokens[0]] + tokens[1..];
    }
  }

  lemma FollowIsStep(doc: Json, token: string) returns (step: Step)
    requires Follow(doc, token).Some?
    ensures Child(doc, step) == Follow(doc, token) && step.Text() == token
  {
    step := if doc.Obj? then Key(token) else Index(ToNat(token));
    if doc.List? {
      IndexIsDecimal(token);
    }
  }

  /** A pointer resolves to v exactly when its tokens spell a path of the document to v. */
  lemma ResolvesIffPath(doc: Json, pointer: string, v: Json)
    ensures FollowAll(doc, Tokens(pointer)) == Some(v) <==>
              exists path :: At(doc, path) == Some(v) && Texts(path) == Tokens(pointer)
  {
    if FollowAll(doc, Tokens(pointer)) == Some(v) {
      var path := ResolvedIsPath(doc, Tokens(pointer));
    }
    forall path | At(doc, path) == Some(v) && Texts(path) == Tokens(pointer)
      ensures FollowAll(doc, Tokens(pointer)) == Some(v)
    {
      FollowsPath(doc, path);
    }
  }

  // ---------------------------------------------------------------- strings that are no JSON Pointer

  predicate TildesOk(s: string) {
    forall i :: 0 <= i < |s| && s[i] == '~' ==> i + 1 < |s| && (s[i + 1] == '0' || s[i + 1] == '1')
  }

  /** The syntax of RFC 6901, section 3. */
  predicate IsPointer(s: string) { (s == "" || s[0] == '/') && TildesOk(s) }

  function Escaped(tokens: seq<string>): seq<string> {
    seq(|tokens|, i requires 0 <= i < |tokens| => Escape(tokens[i]))
  }

  /** The JSON Pointer that a string is taken for. */
  function TakenFor(s: string): string { Join(Escaped(Tokens(s))) }

  lemma {:induction false} EscapeTildesOk(text: string)
    ensures TildesOk(Escape(text))
  {
    if text != "" {
      EscapeTildesOk(text[1..]);
    }
  }

  lemma {:induction false} JoinTildesOk(parts: seq<string>)
    requires forall p :: p in parts ==> TildesOk(p)
    ensures IsPointer(Join(parts))
  {
    if parts != [] {
      assert parts[0] in parts && forall p :: p in parts[1..] ==> p in parts;
      JoinTildesOk(parts[1..]);
    }
  }

  lemma {:induction false} EscapeUnescape(token: string)
    requires '/' !in token && TildesOk(token)
    ensures Escape(Unescape(token)) == token
  {
    if token != "" {
      var n := if token[0] == '~' then 2 else 1;
      var rest := token[n..];
      assert forall i :: 0 <= i < |rest| ==> rest[i] == token[i + n];
      EscapeUnescape(rest);
      if token[0] == '~' {
        assert token == ['~', token[1]] + rest;
        UnescapePair(token[1], rest);
        EscapeMore(if token[1] == '0' then '~' else '/', Unescape(rest));
      } else {
        assert token == [token[0]] + rest;
        UnescapeOther(token[0], rest);
        EscapeMore(token[0], Unescape(rest));
      }
    }
  }

  lemma UnescapePair(e: char, rest: string)
    requires e == '0' || e == '1'
    ensures Unescape(['~', e] + rest) == [if e == '0' then '~' else '/'] + Unescape(rest)
  {
    var inner := ReplaceTilde(rest, '1', '/');
    ReplacePair(e, rest, '1', '/');
    if e == '0' {
      ReplaceOther('0', rest, '1', '/');
      assert ['~'] + (['0'] + inner) == ['~', '0'] + inner;
      ReplacePair('0', inner, '0', '~');
    } else {
      ReplaceOther('/', inner, '0', '~');
    }
  }

  lemma UnescapeOther(c: char, rest: string)
    requires c != '~'
    ensures Unescape([c] + rest) == [c] + Unescape(rest)
  {
    ReplaceOther(c, rest, '1', '/');
    ReplaceOther(c, ReplaceTilde(rest, '1', '/'), '0', '~');
  }

  lemma EscapeMore(c: char, text: string)
    ensures Escape([c] + text) == (if c == '~' then "~0" else if c == '/' then "~1" else [c]) + Escape(text)
  {
    assert ([c] + text)[1..] == text;
  }

  lemma {:induction false} JoinSplit(s: string)
    ensures s == Split(s, '/')[0] + Join(Split(s, '/')[1..])
  {
    if s != "" {
      JoinSplit(s[1..]);
      assert s == [s[0]] + s[1..];
    }
  }

  lemma {:induction false} SplitTildesOk(s: string)
    requires TildesOk(s)
    ensures forall p :: p in Split(s, '/') ==> TildesOk(p)
  {
    if s != "" {
      var rest := s[1..];
      assert forall i :: 0 <= i < |rest| ==> rest[i] == s[i + 1];
      SplitTildesOk(rest);
      var parts := Split(rest, '/');
      assert parts[0] in parts && forall p :: p in parts[1..] ==> p in parts;
      if s[0] == '~' {
        assert rest != "" && rest[0] != '/' && parts[0][0] == rest[0];
      }
    }
  }

  /** Every string resolves as the JSON Pointer it is taken for. */
  lemma ResolvesAsTaken(s: string)
    ensures IsPointer(TakenFor(s)) && Tokens(TakenFor(s)) == Tokens(s)
  {
    var parts := Escaped(Tokens(s));
    forall i | 0 <= i < |parts| ensures '/' !in parts[i] && TildesOk(parts[i]) && Unescape(parts[i]) == Tokens(s)[i] {
      EscapeHasNoSlash(Tokens(s)[i]);
      EscapeTildesOk(Tokens(s)[i]);
      UnescapeEscape(Tokens(s)[i]);
    }
    JoinTildesOk(parts);
    SplitJoin(parts);
  }

  /**
   * A string is taken for itself exactly when it is a JSON Pointer; any other is accepted too, as the pointer that
   * omits what precedes the first slash and escapes the tildes that escape nothing.
   */
  lemma TakenAsIsExactlyWhen(s: string)
    ensures TakenFor(s) == s <==> IsPointer(s)
  {
    ResolvesAsTaken(s);
    if IsPointer(s) {
      PartsStay(s);
      JoinSplit(s);
    }
  }

  lemma PartsStay(s: string)
    requires TildesOk(s)
    ensures Escaped(Tokens(s)) == Split(s, '/')[1..]
  {
    var parts := Split(s, '/')[1..];
    SplitTildesOk(s);
    SplitPartsFree(s, '/');
    forall i | 0 <= i < |parts| ensures Escape(Unescape(parts[i])) == parts[i] {
      assert parts[i] == Split(s, '/')[i + 1];
      EscapeUnescape(parts[i]);
    }
  }

  /** "foo" is taken for the whole document, and a tilde that escapes nothing stands for itself. */
  lemma NoPointerIsRefused()
    ensures !IsPointer("foo") && TakenFor("foo") == ""
    ensures !IsPointer("/~2") && TakenFor("/~2") == "/~02"
  {
    SplitNone("foo", '/');
    SplitNone("~2", '/');
    SplitSlash("~2");
    assert "/" + "~2" == "/~2";
    StrayTilde('2', '1', '/');
    StrayTilde('2', '0', '~');
    EscapeMore('~', "2");
    EscapeMore('2', "");
    assert ['~'] + "2" == "~2" && ['2'] + "" == "2";
    assert ['~', '2'] == "~2" && Unescape("~2") == "~2";
    assert Split("/~2", '/')[1..] == ["~2"];
    assert Tokens("/~2") == ["~2"];
    assert Escape("2") == "2" && "~0" + "2" == "~02" && Escape("~2") == "~02";
    assert Escaped(["~2"]) == ["~02"] && ["~02"][1..] == [];
    assert "/" + ("~02" + "") == "/~02";
    assert "foo"[0] != '/' && "/~2"[1] == '~' && "/~2"[2] == '2';
  }

  lemma StrayTilde(e: char, d: char, c: char)
    requires e != d && e != '~'
    ensures ReplaceTilde(['~', e], d, c) == ['~', e]
  {
    ReplacePair(e, "", d, c);
    ReplaceOther(e, "", d, c);
    assert ['~', e] + "" == ['~', e] && [e] + "" == [e];
  }
}
