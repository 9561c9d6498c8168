/** parse_porcelain_v2_z: the index-driven parser of `git status --porcelain=v2 -z`, as the inverse of the printer. */
module GitStatus {
  import opened Text

  const NUL: char := '\U{0}'

  datatype Status = Status(changed: set<string>, renames: seq<(string, string)>, ignored: set<string>)

  const EMPTY := Status({}, [], {})

  datatype Defect = Malformed(kind: char) | MissingOriginal | UnknownRecord

  datatype Parsed = Ok(status: Status) | Error(defect: Defect)

  // ---------------------------------------------------------------- records

  /** One entry of the stream: its space-free columns, then its path, then for a rename the path it had before. */
  datatype Record =
    | Blank
    | Entry(kind: char, fields: seq<string>, path: string)
    | Renamed(fields: seq<string>, path: string, original: string)

  /** The number of columns in front of the path; 0 for a type that is not recognized. */
  function Width(kind: char, recognizeIgnored: bool): nat {
    match kind
    case '1' => 8
    case '2' => 9
    case 'u' => 10
    case '?' => 1
    case '!' => if recognizeIgnored then 1 else 0
    case _ => 0
  }

  /** Columns without spaces or NULs, of which the first begins with the record's type, and a path without NUL. */
  predicate Row(kind: char, fields: seq<string>, path: string, recognizeIgnored: bool) {
    && |fields| == Width(kind, recognizeIgnored) > 0
    && (forall i :: 0 <= i < |fields| ==> ' ' !in fields[i] && NUL !in fields[i])
    && fields[0] != "" && fields[0][0] == kind
    && NUL !in path
  }

  /** The records of the format; a path may hold spaces, look like a record header, or even be empty. */
  predicate WellFormed(r: Record, recognizeIgnored: bool) {
    match r
    case Blank => true
    case Entry(kind, fields, path) => kind != '2' && Row(kind, fields, path, recognizeIgnored)
    case Renamed(fields, path, original) => Row('2', fields, path, recognizeIgnored) && NUL !in original
  }

  /** So many columns, without spaces and zero characters, the first of which begins with the type. */
  predicate Columns(n: nat, kind: char, fields: seq<string>, path: string) {
    && |fields| == n && (forall i :: 0 <= i < n ==> ' ' !in fields[i] && (0 as char) !in fields[i])
    && n > 0 && fields[0] != "" && fields[0][0] == kind && (0 as char) !in path
  }

  /**
   * The format by numbers: 8 columns for an ordinary entry, 9 for a rename or copy, 10 for an unmerged one, 1 for an
   * untracked path, and for an ignored one if those are asked for.
   */
  lemma FormatMeans(r: Record, recognizeIgnored: bool)
    ensures WellFormed(r, recognizeIgnored) <==>
              match r
              case Blank => true
              case Entry(kind, fields, path) =>
                || (kind == '1' && Columns(8, '1', fields, path)) || (kind == 'u' && Columns(10, 'u', fields, path))
                || (kind == '?' && Columns(1, '?', fields, path))
                || (kind == '!' && recognizeIgnored && Columns(1, '!', fields, path))
              case Renamed(fields, path, original) => Columns(9, '2', fields, path) && (0 as char) !in original
  {
    assert NUL == 0 as char;
  }

  /** The NUL-terminated pieces that print a record. */
  function TokensOf(r: Record): seq<string> {
    match r
    case Blank => [""]
    case Entry(_, fields, path) => [JoinWith(fields, path, ' ')]
    case Renamed(fields, path, original) => [JoinWith(fields, path, ' '), original]
  }

  function AllTokens(rs: seq<Record>): seq<string> {
    if rs == [] then [] else TokensOf(rs[0]) + AllTokens(rs[1..])
  }

  /** The stream: every piece followed by NUL. */
  function Stream(tokens: seq<string>): string {
    if tokens == [] then "" else tokens[0] + [NUL] + Stream(tokens[1..])
  }

  function Print(rs: seq<Record>): string { Stream(AllTokens(rs)) }

  /** What a record adds: both names of a rename are changed paths, an ignored path is never one. */
  function Apply(acc: Status, r: Record): Status {
    match r
    case Blank => acc
    case Entry(kind, _, path) =>
      if kind == '!' then acc.(ignored := acc.ignored + {path}) else acc.(changed := acc.changed + {path})
    case Renamed(_, path, original) =>
      acc.(changed := acc.changed + {path, original}, renames := acc.renames + [(original, path)])
  }

  function Meaning(acc: Status, rs: seq<Record>): Status
    decreases |rs|
  {
    if rs == [] then acc else Meaning(Apply(acc, rs[0]), rs[1..])
  }

  // ---------------------------------------------------------------- reading

  datatype Read = Got(record: Record, used: nat) | Bad(defect: Defect)

  /** The record at the head of the tokens and how many tokens it takes, or why there is none. */
  function ReadRecord(tokens: seq<string>, recognizeIgnored: bool): (r: Read)
    requires tokens != []
    ensures r.Got? ==> 1 <= r.used <= |tokens|
  {
    if tokens[0] == "" then Got(Blank, 1)
    else
      var kind := tokens[0][0];
      var n := Width(kind, recognizeIgnored);
      var parts := SplitMax(tokens[0], ' ', n);
      if n == 0 then Bad(UnknownRecord)
      else if |parts| != n + 1 then Bad(Malformed(kind))
      else if kind != '2' then Got(Entry(kind, parts[..n], parts[n]), 1)
      else if |tokens| < 2 then Bad(MissingOriginal)
      else Got(Renamed(parts[..n], parts[n], tokens[1]), 2)
  }

  function ParseTokens(acc: Status, tokens: seq<string>, recognizeIgnored: bool): Parsed
    decreases |tokens|
  {
    if tokens == [] then Ok(acc)
    else
      match ReadRecord(tokens, recognizeIgnored)
      case Bad(defect) => Error(defect)
      case Got(record, used) => ParseTokens(Apply(acc, record), tokens[used..], recognizeIgnored)
  }

  /** text.split("\x00") without the empty piece after the final NUL. */
  function TokensOfText(text: string): seq<string> {
    var tokens := Split(text, NUL);
    if tokens[|tokens| - 1] == "" then tokens[..|tokens| - 1] else tokens
  }

  method ParsePorcelain(text: string, recognizeIgnored: bool) returns (r: Parsed)
    ensures r == ParseTokens(EMPTY, TokensOfText(text), recognizeIgnored)
  {
    var tokens := Split(text, NUL);
    if tokens[|tokens| - 1] == "" {
      tokens := tokens[..|tokens| - 1];
    }
    r := ParseLoop(tokens, recognizeIgnored);
  }

  /** The loop over the token index. */
  method ParseLoop(tokens: seq<string>, recognizeIgnored: bool) returns (r: Parsed)
    ensures r == ParseTokens(EMPTY, tokens, recognizeIgnored)
  {
    var changed: set<string>, renames: seq<(string, string)>, ignored: set<string> := {}, [], {};
    var i, n := 0, |tokens|;
    while i < n
      invariant 0 <= i <= n
      invariant ParseTokens(EMPTY, tokens, recognizeIgnored) ==
                ParseTokens(Status(changed, renames, ignored), tokens[i..], recognizeIgnored)
    {
      ParseStep(Status(changed, renames, ignored), tokens, i, recognizeIgnored);
      var token := tokens[i];
      if token == "" {
        i := i + 1;
        continue;
      }
      var kind := token[0];
      if kind == '1' {
        var parts := SplitMax(token, ' ', 8);
        if |parts| != 9 { return Error(Malformed('1')); }
        changed := changed + {parts[8]};
        i := i + 1;
      } else if kind == '2' {
        var parts := SplitMax(token, ' ', 9);
        if |parts| != 10 { return Error(Malformed('2')); }
        var destination := parts[9];
        i := i + 1;
        if i >= n { return Error(MissingOriginal); }
        var original := tokens[i];
        changed := changed + {destination, original};
        renames := renames + [(original, destination)];
        i := i + 1;
      } else if kind == 'u' {
        var parts := SplitMax(token, ' ', 10);
        if |parts| != 11 { return Error(Malformed('u')); }
        changed := changed + {parts[10]};
        i := i + 1;
      } else if kind == '?' {
        var parts := SplitMax(token, ' ', 1);
        if |parts| != 2 { return Error(Malformed('?')); }
        changed := changed + {parts[1]};
        i := i + 1;
      } else if kind == '!' && recognizeIgnored {
        var parts := SplitMax(token, ' ', 1);
        if |parts| != 2 { return Error(Malformed('!')); }
        ignored := ignored + {parts[1]};
        i := i + 1;
      } else {
        return Error(UnknownRecord);
      }
    }
    return Ok(Status(changed, renames, ignored));
  }

  /** One turn of the loop at index i, in terms of the record that begins there. */
  lemma ParseStep(acc: Status, tokens: seq<string>, i: nat, recognizeIgnored: bool)
    requires i < |tokens|
    ensures ParseTokens(acc, tokens[i..], recognizeIgnored) ==
            if tokens[i] == "" then ParseTokens(acc, tokens[i + 1..], recognizeIgnored)
            else
              var kind, n := tokens[i][0], Width(tokens[i][0], recognizeIgnored);
              var parts := SplitMax(tokens[i], ' ', n);
              if n == 0 then Error(UnknownRecord)
              else if |parts| != n + 1 then Error(Malformed(kind))
              else if kind == '2' && i + 1 == |tokens| then Error(MissingOriginal)
              else if kind == '2' then
                ParseTokens(acc.(changed := acc.changed + {parts[n], tokens[i + 1]},
                                 renames := acc.renames + [(tokens[i + 1], parts[n])]),
                            tokens[i + 2..], recognizeIgnored)
              else if kind == '!' then
                ParseTokens(acc.(ignored := acc.ignored + {parts[n]}), tokens[i + 1..], recognizeIgnored)
              else ParseTokens(acc.(changed := acc.changed + {parts[n]}), tokens[i + 1..], recognizeIgnored)
  {
    var ts := tokens[i..];
    assert ts[0] == tokens[i] && ts[1..] == tokens[i + 1..];
    if i + 1 < |tokens| {
      assert ts[1] == tokens[i + 1] && ts[2..] == tokens[i + 2..];
    }
  }

  // ---------------------------------------------------------------- parser and printer are inverse

  lemma {:induction false} JoinHas(fields: seq<string>, last: string, sep: char, c: char)
    requires c !in JoinWith(fields, last, sep)
    ensures c !in last && forall i :: 0 <= i < |fields| ==> c !in fields[i]
  {
    if fields != [] {
      var rest := JoinWith(fields[1..], last, sep);
      assert forall x :: x in rest || x in fields[0] ==> x in fields[0] + [sep] + rest;
      JoinHas(fields[1..], last, sep, c);
    }
  }

  /** A printed record is read back, whatever follows it. */
  lemma ReadsPrinted(r: Record, rest: seq<string>, recognizeIgnored: bool)
    requires WellFormed(r, recognizeIgnored)
    ensures ReadRecord(TokensOf(r) + rest, recognizeIgnored) == Got(r, |TokensOf(r)|)
  {
    if !r.Blank? {
      PrintedRow(if r.Entry? then r.kind else '2', r.fields, r.path, recognizeIgnored);
    }
  }

  lemma PrintedRow(kind: char, fields: seq<string>, path: string, recognizeIgnored: bool)
    requires Row(kind, fields, path, recognizeIgnored)
    ensures var token := JoinWith(fields, path, ' ');
            token != "" && token[0] == kind && SplitMax(token, ' ', |fields|) == fields + [path]
  {
    SplitMaxJoin(fields, path, ' ');
    assert JoinWith(fields, path, ' ') == fields[0] + [' '] + JoinWith(fields[1..], path, ' ');
  }

  /** Whatever is read is a well-formed record, printed at the head of the tokens. */
  lemma ReadIsPrinted(tokens: seq<string>, recognizeIgnored: bool)
    requires tokens != [] && ReadRecord(tokens, recognizeIgnored).Got?
    requires forall i :: 0 <= i < |tokens| ==> NUL !in tokens[i]
    ensures var r := ReadRecord(tokens, recognizeIgnored);
            WellFormed(r.record, recognizeIgnored) && TokensOf(r.record) == tokens[..r.used]
  {
    if tokens[0] != "" {
      ReadRow(tokens[0], recognizeIgnored);
    }
  }

  lemma ReadRow(token: string, recognizeIgnored: bool)
    requires token != "" && NUL !in token && Width(token[0], recognizeIgnored) > 0
    requires |SplitMax(token, ' ', Width(token[0], recognizeIgnored))| == Width(token[0], recognizeIgnored) + 1
    ensures var n := Width(token[0], recognizeIgnored);
            var parts := SplitMax(token, ' ', n);
            Row(token[0], parts[..n], parts[n], recognizeIgnored) && JoinWith(parts[..n], parts[n], ' ') == token
  {
    var n := Width(token[0], recognizeIgnored);
    var parts := SplitMax(token, ' ', n);
    SplitMaxInverts(token, ' ', n, parts);
    JoinHas(parts[..n], parts[n], ' ', NUL);
    assert parts[0] == token[..Find(token, ' ')];
  }

  lemma {:induction false} SplitStream(tokens: seq<string>)
    requires forall i :: 0 <= i < |tokens| ==> NUL !in tokens[i]
    ensures Split(Stream(tokens), NUL) == tokens + [""]
  {
    if tokens != [] {
      SplitStream(tokens[1..]);
      SplitPrefix(tokens[0], Stream(tokens[1..]), NUL);
    }
  }

  ghost predicate AllWellFormed(rs: seq<Record>, recognizeIgnored: bool) {
    forall i :: 0 <= i < |rs| ==> WellFormed(rs[i], recognizeIgnored)
  }

  lemma PrintedFree(r: Record, recognizeIgnored: bool)
    requires WellFormed(r, recognizeIgnored)
    ensures forall i :: 0 <= i < |TokensOf(r)| ==> NUL !in TokensOf(r)[i]
  {
    if !r.Blank? {
      JoinFree(r.fields, r.path, ' ', NUL);
    }
  }

  lemma {:induction false} JoinFree(fields: seq<string>, last: string, sep: char, c: char)
    requires c != sep && c !in last && forall i :: 0 <= i < |fields| ==> c !in fields[i]
    ensures c !in JoinWith(fields, last, sep)
  {
    if fields != [] {
      JoinFree(fields[1..], last, sep, c);
    }
  }

  lemma {:induction false} AllPrintedFree(rs: seq<Record>, recognizeIgnored: bool)
    requires AllWellFormed(rs, recognizeIgnored)
    ensures forall i :: 0 <= i < |AllTokens(rs)| ==> NUL !in AllTokens(rs)[i]
  {
    if rs != [] {
      PrintedFree(rs[0], recognizeIgnored);
      AllPrintedFree(rs[1..], recognizeIgnored);
    }
  }

  lemma {:induction false} ParsesPrinted(acc: Status, rs: seq<Record>, recognizeIgnored: bool)
    requires AllWellFormed(rs, recognizeIgnored)
    ensures ParseTokens(acc, AllTokens(rs), recognizeIgnored) == Ok(Meaning(acc, rs))
    decreases |rs|
  {
    if rs != [] {
      ReadsPrinted(rs[0], AllTokens(rs[1..]), recognizeIgnored);
      ParsesPrinted(Apply(acc, rs[0]), rs[1..], recognizeIgnored);
      assert AllTokens(rs)[|TokensOf(rs[0])|..] == AllTokens(rs[1..]);
    }
  }

  lemma {:induction false} ParsedIsPrinted(acc: Status, tokens: seq<string>, recognizeIgnored: bool)
    returns (rs: seq<Record>)
    requires ParseTokens(acc, tokens, recognizeIgnored).Ok?
    requires forall i :: 0 <= i < |tokens| ==> NUL !in tokens[i]
    ensures AllWellFormed(rs, recognizeIgnored) && AllTokens(rs) == tokens
    ensures ParseTokens(acc, tokens, recognizeIgnored) == Ok(Meaning(acc, rs))
    decreases |tokens|
  {
    if tokens == [] {
      rs := [];
    } else {
      var r := ReadRecord(tokens, recognizeIgnored);
      var more := tokens[r.used..];
      FreeTail(tokens, r.used);
      ParseHead(acc, tokens, recognizeIgnored);
      var rest := ParsedIsPrinted(Apply(acc, r.record), more, recognizeIgnored);
      OneMoreRecord(acc, r.record, rest, recognizeIgnored);
      assert tokens[..r.used] + more == tokens;
      rs := [r.record] + rest;
    }
  }

  lemma ParseHead(acc: Status, tokens: seq<string>, recognizeIgnored: bool)
    requires tokens != [] && ParseTokens(acc, tokens, recognizeIgnored).Ok?
    requires forall i :: 0 <= i < |tokens| ==> NUL !in tokens[i]
    ensures var r := ReadRecord(tokens, recognizeIgnored);
            && r.Got? && WellFormed(r.record, recognizeIgnored) && TokensOf(r.record) == tokens[..r.used]
            && ParseTokens(acc, tokens, recognizeIgnored) ==
               ParseTokens(Apply(acc, r.record), tokens[r.used..], recognizeIgnored)
  {
    ReadIsPrinted(tokens, recognizeIgnored);
  }

  lemma FreeTail(tokens: seq<string>, n: nat)
    requires n <= |tokens| && forall i :: 0 <= i < |tokens| ==> NUL !in tokens[i]
    ensures forall i :: 0 <= i < |tokens[n..]| ==> NUL !in tokens[n..][i]
  {
  }

  lemma OneMoreRecord(acc: Status, r: Record, rest: seq<Record>, recognizeIgnored: bool)
    requires WellFormed(r, recognizeIgnored) && AllWellFormed(rest, recognizeIgnored)
    ensures AllWellFormed([r] + rest, recognizeIgnored) && AllTokens([r] + rest) == TokensOf(r) + AllTokens(rest)
    ensures Meaning(acc, [r] + rest) == Meaning(Apply(acc, r), rest)
  {
    assert ([r] + rest)[1..] == rest;
  }

  /** The parser undoes the printer: every list of well-formed records is read back with its exact meaning. */
  lemma ParserInvertsPrinter(rs: seq<Record>, recognizeIgnored: bool)
    requires AllWellFormed(rs, recognizeIgnored)
    ensures ParseTokens(EMPTY, TokensOfText(Print(rs)), recognizeIgnored) == Ok(Meaning(EMPTY, rs))
  {
    AllPrintedFree(rs, recognizeIgnored);
    SplitStream(AllTokens(rs));
    assert (AllTokens(rs) + [""])[..|AllTokens(rs)|] == AllTokens(rs);
    ParsesPrinted(EMPTY, rs, recognizeIgnored);
  }

  /** The parser accepts a stream exactly when well-formed records print its pieces, and then means just that. */
  lemma AcceptsExactlyTheFormat(text: string, recognizeIgnored: bool, status: Status)
    ensures ParseTokens(EMPTY, TokensOfText(text), recognizeIgnored) == Ok(status) <==>
            exists rs :: AllWellFormed(rs, recognizeIgnored) && AllTokens(rs) == TokensOfText(text) &&
              status == Meaning(EMPTY, rs)
  {
    SplitPartsFree(text, NUL);
    if ParseTokens(EMPTY, TokensOfText(text), recognizeIgnored) == Ok(status) {
      var rs := ParsedIsPrinted(EMPTY, TokensOfText(text), recognizeIgnored);
    }
    forall rs | AllWellFormed(rs, recognizeIgnored) && AllTokens(rs) == TokensOfText(text) &&
      status == Meaning(EMPTY, rs)
      ensures ParseTokens(EMPTY, TokensOfText(text), recognizeIgnored) == Ok(status)
    {
      ParsesPrinted(EMPTY, rs, recognizeIgnored);
    }
  }

  /** The paths a record reports as changed: both names of a rename, and nothing for an ignored path. */
  function ChangedBy(r: Record): set<string> {
    match r
    case Blank => {}
    case Entry(kind, _, path) => if kind == '!' then {} else {path}
    case Renamed(_, path, original) => {path, original}
  }

  /** The meaning of records, element by element: no path is reported that no record carries, and none is missed. */
  lemma {:induction false} MeaningIsExact(acc: Status, rs: seq<Record>, p: string)
    ensures p in Meaning(acc, rs).changed <==> p in acc.changed || exists i :: 0 <= i < |rs| && p in ChangedBy(rs[i])
    ensures p in Meaning(acc, rs).ignored <==>
              p in acc.ignored || exists i :: 0 <= i < |rs| && rs[i].Entry? && rs[i].kind == '!' && rs[i].path == p
    ensures forall q :: (p, q) in Meaning(acc, rs).renames <==>
              (p, q) in acc.renames || exists i ::
                0 <= i < |rs| && rs[i].Renamed? && rs[i].original == p && rs[i].path == q
    decreases |rs|
  {
    if rs != [] {
      MeaningIsExact(Apply(acc, rs[0]), rs[1..], p);
      assert rs == [rs[0]] + rs[1..];
    }
  }
}
