/** Splitting the VALUES list of an INSERT statement, and the per-table rewriting of its columns. */
module SqlValues {
  import opened Common
  import opened JsText

  const QUOTE: char := '\''

  /** What is left of the string after the scanner's current position decides the values still to come. */
  function Scan(s: string, inString: bool, current: string): seq<string>
    decreases |s|
  {
    if s == "" then
      if Trim(current) != "" then [Trim(current)] else []
    else if inString then
      if s[0] == QUOTE && |s| > 1 && s[1] == QUOTE then Scan(s[2..], true, current + s[..2])
      else Scan(s[1..], s[0] != QUOTE, current + s[..1])
    else if s[0] == QUOTE then Scan(s[1..], true, current + s[..1])
    else if s[0] == ',' then [Trim(current)] + Scan(s[1..], false, "")
    else Scan(s[1..], false, current + s[..1])
  }

  method SplitValues(valuesStr: string) returns (values: seq<string>)
    ensures values == Scan(valuesStr, false, "")
  {
    values := [];
    var current := "";
    var inString := false;
    var i := 0;
    assert valuesStr[0..] == valuesStr;
    while i < |valuesStr|
      invariant 0 <= i <= |valuesStr|
      invariant values + Scan(valuesStr[i..], inString, current) == Scan(valuesStr, false, "")
    {
      var ch := valuesStr[i];
      ghost var rest := valuesStr[i..];
      assert rest[0] == ch && rest[1..] == valuesStr[i + 1..] && rest[..1] == [ch];
      if inString {
        current := current + [ch];
        if ch == QUOTE && i + 1 < |valuesStr| && valuesStr[i + 1] == QUOTE {
          assert rest[2..] == valuesStr[i + 2..] && rest[..2] == [ch] + [valuesStr[i + 1]];
          assert rest[1] == QUOTE && current + [valuesStr[i + 1]] == current[..|current| - 1] + rest[..2];
          current := current + [valuesStr[i + 1]];
          i := i + 2;
          continue;
        }
        assert |rest| > 1 ==> rest[1] == valuesStr[i + 1];
        if ch == QUOTE { inString := false; }
        i := i + 1;
        continue;
      }
      if ch == QUOTE {
        inString := true;
        current := current + [ch];
        i := i + 1;
        continue;
      }
      if ch == ',' {
        assert values + ([Trim(current)] + Scan(rest[1..], false, ""))
                 == values + [Trim(current)] + Scan(rest[1..], false, "");
        values := values + [Trim(current)];
        current := "";
        i := i + 1;
        continue;
      }
      current := current + [ch];
      i := i + 1;
    }
    if Trim(current) != "" { values := values + [Trim(current)]; }
  }

  // ------------------------------------------------------------ splitting what was joined

  /** A quoted string, its quotes doubled inside, or a bare token. */
  datatype Literal = Quoted(body: string) | Token(text: string)

  function Escape(body: string): string {
    if body == "" then "" else (if body[0] == QUOTE then [QUOTE, QUOTE] else [body[0]]) + Escape(body[1..])
  }

  function Text(l: Literal): string {
    match l
    case Quoted(body) => [QUOTE] + Escape(body) + [QUOTE]
    case Token(text) => text
  }

  /** A bare token is not empty, carries no quote or comma, and has no space at either end. */
  predicate WellFormed(l: Literal) {
    l.Token? ==>
      && l.text != "" && Trim(l.text) == l.text
      && forall c :: c in l.text ==> c != QUOTE && c != ','
  }

  function Join(ls: seq<Literal>): string {
    if ls == [] then "" else if |ls| == 1 then Text(ls[0]) else Text(ls[0]) + ", " + Join(ls[1..])
  }

  function Texts(ls: seq<Literal>): seq<string> {
    if ls == [] then [] else [Text(ls[0])] + Texts(ls[1..])
  }

  /** The end of the list or the comma before the next value. */
  predicate Boundary(rest: string) {
    rest == "" || rest[0] == ','
  }

  lemma {:induction false} ScanBody(body: string, rest: string, current: string)
    requires Boundary(rest)
    ensures Scan(Escape(body) + [QUOTE] + rest, true, current) == Scan(rest, false, current + Escape(body) + [QUOTE])
  {
    var s := Escape(body) + [QUOTE] + rest;
    if body == "" {
      assert s == [QUOTE] + rest;
      assert s[1..] == rest && s[..1] == [QUOTE];
      assert current + [] + [QUOTE] == current + [QUOTE];
    } else if body[0] == QUOTE {
      assert s == [QUOTE, QUOTE] + (Escape(body[1..]) + [QUOTE] + rest);
      assert s[2..] == Escape(body[1..]) + [QUOTE] + rest && s[..2] == [QUOTE, QUOTE];
      ScanBody(body[1..], rest, current + [QUOTE, QUOTE]);
      assert current + [QUOTE, QUOTE] + Escape(body[1..]) == current + Escape(body);
    } else {
      assert s == [body[0]] + (Escape(body[1..]) + [QUOTE] + rest);
      assert s[1..] == Escape(body[1..]) + [QUOTE] + rest && s[..1] == [body[0]];
      ScanBody(body[1..], rest, current + [body[0]]);
      assert current + [body[0]] + Escape(body[1..]) == current + Escape(body);
    }
  }

  lemma {:induction false} ScanToken(text: string, rest: string, current: string)
    requires forall c :: c in text ==> c != QUOTE && c != ','
    ensures Scan(text + rest, false, current) == Scan(rest, false, current + text)
  {
    if text == "" {
      assert text + rest == rest && current + text == current;
    } else {
      var s := text + rest;
      assert text[0] in text;
      assert s[1..] == text[1..] + rest && s[..1] == [text[0]];
      assert forall c :: c in text[1..] ==> c in text;
      ScanToken(text[1..], rest, current + [text[0]]);
      assert current + [text[0]] + text[1..] == current + text;
    }
  }

  lemma ScanLiteral(l: Literal, rest: string, current: string)
    requires WellFormed(l) && Boundary(rest)
    ensures Scan(Text(l) + rest, false, current) == Scan(rest, false, current + Text(l))
  {
    match l
    case Token(text) => ScanToken(text, rest, current);
    case Quoted(body) =>
      var s := Text(l) + rest;
      assert s[1..] == Escape(body) + [QUOTE] + rest && s[..1] == [QUOTE];
      ScanBody(body, rest, current + [QUOTE]);
      assert current + [QUOTE] + Escape(body) + [QUOTE] == current + Text(l);
  }

  lemma TrimKeeps(l: Literal)
    requires WellFormed(l)
    ensures Trim(Text(l)) == Text(l) && Trim(" " + Text(l)) == Text(l) && Text(l) != ""
  {
    var t := Text(l);
    assert (" " + t)[1..] == t;
    if l.Quoted? {
      assert t[0] == QUOTE && t[|t| - 1] == QUOTE;
    } else {
      assert TrimLeft(" " + t) == TrimLeft(t);
    }
  }

  /** One literal of a longer list: scanned up to its comma, the next one starts after a space. */
  lemma ScanOne(l: Literal, more: string, current: string)
    requires WellFormed(l) && (current == "" || current == " ")
    ensures Scan(Text(l) + ", " + more, false, current) == [Text(l)] + Scan(more, false, " ")
  {
    hide Escape, IsSpace, TrimLeft, TrimRight, WellFormed, Text;
    TrimKeeps(l);
    assert current + Text(l) == Text(l) || current + Text(l) == " " + Text(l);
    var rest := ", " + more;
    assert Text(l) + ", " + more == Text(l) + rest;
    ScanLiteral(l, rest, current);
    var tail := " " + more;
    assert rest[1..] == tail;
    assert tail[1..] == more && tail[..1] == " " && "" + tail[..1] == " ";
  }

  lemma ScanLast(l: Literal, current: string)
    requires WellFormed(l) && (current == "" || current == " ")
    ensures Scan(Text(l), false, current) == [Text(l)]
  {
    hide Escape, IsSpace, TrimLeft, TrimRight, WellFormed, Text;
    TrimKeeps(l);
    assert current + Text(l) == Text(l) || current + Text(l) == " " + Text(l);
    ScanLiteral(l, "", current);
    assert Text(l) + "" == Text(l);
  }

  lemma {:induction false} ScanJoined(ls: seq<Literal>, current: string)
    requires ls != [] && forall i :: 0 <= i < |ls| ==> WellFormed(ls[i])
    requires current == "" || current == " "
    ensures Scan(Join(ls), false, current) == Texts(ls)
  {
    hide WellFormed, Text, Scan;
    if |ls| == 1 {
      ScanLast(ls[0], current);
      assert Texts(ls[1..]) == [];
      assert [Text(ls[0])] + [] == [Text(ls[0])];
    } else {
      ScanOne(ls[0], Join(ls[1..]), current);
      ScanJoined(ls[1..], " ");
    }
  }

  /** Splitting literals joined with ", " gives the literals back. */
  lemma SplitUndoesJoin(ls: seq<Literal>)
    requires ls != [] && forall i :: 0 <= i < |ls| ==> WellFormed(ls[i])
    ensures Scan(Join(ls), false, "") == Texts(ls)
  {
    ScanJoined(ls, "");
  }

  // ------------------------------------------------------------ splitting anything

  /** Read from inside or outside a string, the text has no comma outside strings. */
  predicate NoComma(s: string, inString: bool)
    decreases |s|
  {
    if s == "" then true
    else if inString then
      if s[0] == QUOTE && |s| > 1 && s[1] == QUOTE then NoComma(s[2..], true) else NoComma(s[1..], s[0] != QUOTE)
    else s[0] != ',' && NoComma(s[1..], s[0] == QUOTE)
  }

  /** Every string opened in it is closed again. */
  predicate Closed(s: string, inString: bool)
    decreases |s|
  {
    if s == "" then !inString
    else if inString then
      if s[0] == QUOTE && |s| > 1 && s[1] == QUOTE then Closed(s[2..], true) else Closed(s[1..], s[0] != QUOTE)
    else Closed(s[1..], s[0] == QUOTE)
  }

  /** The pieces with single commas between them. */
  function Commas(pieces: seq<string>): string {
    if pieces == [] then "" else if |pieces| == 1 then pieces[0] else pieces[0] + "," + Commas(pieces[1..])
  }

  function Trims(pieces: seq<string>): seq<string> {
    if pieces == [] then [] else [Trim(pieces[0])] + Trims(pieces[1..])
  }

  lemma {:induction false} ScanPiece(piece: string, inString: bool, rest: string, current: string)
    requires NoComma(piece, inString) && Closed(piece, inString) && Boundary(rest)
    ensures Scan(piece + rest, inString, current) == Scan(rest, false, current + piece)
    decreases |piece|
  {
    var s := piece + rest;
    if piece == "" {
      assert s == rest && current + piece == current;
    } else if inString && piece[0] == QUOTE && |piece| > 1 && piece[1] == QUOTE {
      assert s[2..] == piece[2..] + rest && s[..2] == piece[..2];
      ScanPiece(piece[2..], true, rest, current + piece[..2]);
      assert current + piece[..2] + piece[2..] == current + piece;
    } else {
      var inside := if inString then piece[0] != QUOTE else piece[0] == QUOTE;
      assert s[1..] == piece[1..] + rest && s[..1] == piece[..1];
      assert |piece| > 1 ==> s[1] == piece[1];
      ScanPiece(piece[1..], inside, rest, current + piece[..1]);
      assert current + piece[..1] + piece[1..] == current + piece;
    }
  }

  lemma {:induction false} ScanTail(piece: string, inString: bool, current: string)
    requires NoComma(piece, inString)
    ensures Scan(piece, inString, current) == if Trim(current + piece) != "" then [Trim(current + piece)] else []
    decreases |piece|
  {
    hide Trim;
    if piece == "" {
      assert current + piece == current;
    } else if inString && piece[0] == QUOTE && |piece| > 1 && piece[1] == QUOTE {
      ScanTail(piece[2..], true, current + piece[..2]);
      assert current + piece[..2] + piece[2..] == current + piece;
    } else {
      ScanTail(piece[1..], if inString then piece[0] != QUOTE else piece[0] == QUOTE, current + piece[..1]);
      assert current + piece[..1] + piece[1..] == current + piece;
    }
  }

  /**
   * Whatever the text: cut at the commas outside strings, the last piece perhaps with a string left open, the values
   * are the trimmed pieces, empty ones included, except that a blank last piece is no value.
   */
  lemma {:induction false} SplitAtCommas(pieces: seq<string>)
    requires pieces != [] && forall i :: 0 <= i < |pieces| ==> NoComma(pieces[i], false)
    requires forall i :: 0 <= i < |pieces| - 1 ==> Closed(pieces[i], false)
    ensures var n := |pieces| - 1;
            Scan(Commas(pieces), false, "")
            == Trims(pieces[..n]) + if Trim(pieces[n]) != "" then [Trim(pieces[n])] else []
  {
    hide Trim, NoComma, Closed;
    var n := |pieces| - 1;
    assert "" + pieces[0] == pieces[0];
    if n == 0 {
      ScanTail(pieces[0], false, "");
      assert Trims(pieces[..0]) == [];
    } else {
      var more := Commas(pieces[1..]);
      var rest := "," + more;
      assert Commas(pieces) == pieces[0] + rest;
      ScanPiece(pieces[0], false, rest, "");
      assert rest[1..] == more;
      SplitAtCommas(pieces[1..]);
      assert pieces[..n][1..] == pieces[1..][..n - 1];
      var last := if Trim(pieces[n]) != "" then [Trim(pieces[n])] else [];
      AppendAssoc([Trim(pieces[0])], Trims(pieces[1..][..n - 1]), last);
    }
  }

  /** Every text is such pieces. */
  lemma {:induction false} HasPieces(s: string, inString: bool) returns (pieces: seq<string>)
    ensures pieces != [] && Commas(pieces) == s
    ensures NoComma(pieces[0], inString) && forall i :: 1 <= i < |pieces| ==> NoComma(pieces[i], false)
    ensures |pieces| > 1 ==> Closed(pieces[0], inString)
    ensures forall i :: 1 <= i < |pieces| - 1 ==> Closed(pieces[i], false)
    decreases |s|
  {
    if s == "" {
      pieces := [""];
    } else if !inString && s[0] == ',' {
      var rest := HasPieces(s[1..], false);
      pieces := [""] + rest;
      assert pieces[1..] == rest;
      assert s == "" + "," + s[1..];
    } else {
      var k := if inString && s[0] == QUOTE && |s| > 1 && s[1] == QUOTE then 2 else 1;
      var inside := if k == 2 then true else if inString then s[0] != QUOTE else s[0] == QUOTE;
      var rest := HasPieces(s[k..], inside);
      FirstLonger(s, k, inString, inside, rest);
      pieces := [s[..k] + rest[0]] + rest[1..];
    }
  }

  lemma FirstLonger(s: string, k: nat, inString: bool, inside: bool, rest: seq<string>)
    requires 1 <= k <= |s| && k <= 2 && rest != [] && Commas(rest) == s[k..]
    requires k == 2 <==> inString && s[0] == QUOTE && |s| > 1 && s[1] == QUOTE
    requires inside == if k == 2 then true else if inString then s[0] != QUOTE else s[0] == QUOTE
    requires !(!inString && s[0] == ',') && NoComma(rest[0], inside)
    ensures Commas([s[..k] + rest[0]] + rest[1..]) == s
    ensures NoComma(s[..k] + rest[0], inString)
    ensures Closed(rest[0], inside) ==> Closed(s[..k] + rest[0], inString)
  {
    var first := s[..k] + rest[0];
    var pieces := [first] + rest[1..];
    assert first[k..] == rest[0] && first[..k] == s[..k];
    assert s == s[..k] + s[k..];
    assert pieces[1..] == rest[1..];
    assert |first| > 1 && k == 1 ==> first[1] == rest[0][0];
    StartsAlike(rest, s[k..]);
  }

  lemma StartsAlike(rest: seq<string>, s: string)
    requires rest != [] && Commas(rest) == s
    ensures rest[0] <= s && (|rest| > 1 ==> |rest[0]| < |s| && s[|rest[0]|] == ',')
  {
    if |rest| > 1 { assert s == rest[0] + ("," + Commas(rest[1..])); }
  }

  // ------------------------------------------------------------ rewriting an insert

  const ORDER := "order"
  const IS_EXT := "is_ext"
  const DEFAULT := "default"
  const USERNAME := "username"
  const IS_SUPER_ADMIN := "isSuperAdmin"

  /** The tables that are rewritten: `sys_dict_item`, `sys_menu`, `sys_role`, `sys_user`. */
  datatype Table = DictItem | Menu | Role | User | Other

  function IndexOf(columns: seq<string>, name: string): (i: int)
    ensures -1 <= i < |columns|
    ensures i >= 0 ==> columns[i] == name && forall j :: 0 <= j < i ==> columns[j] != name
    ensures i < 0 ==> forall j :: 0 <= j < |columns| ==> columns[j] != name
  {
    if columns == [] then -1
    else if columns[0] == name then 0
    else var i := IndexOf(columns[1..], name); if i < 0 then -1 else i + 1
  }

  function Without(columns: seq<string>, name: string): (r: seq<string>)
    ensures |r| <= |columns|
  {
    if columns == [] then [] else (if columns[0] == name then [] else [columns[0]]) + Without(columns[1..], name)
  }

  /** What is left of `b` when some of its members are struck out. */
  predicate LeftOf(a: seq<string>, b: seq<string>) {
    a == [] || (b != [] && ((a[0] == b[0] && LeftOf(a[1..], b[1..])) || LeftOf(a, b[1..])))
  }

  lemma {:induction false} WithoutIsLeft(columns: seq<string>, name: string)
    ensures LeftOf(Without(columns, name), columns)
  {
    if columns != [] {
      WithoutIsLeft(columns[1..], name);
      if columns[0] != name {
        assert ([columns[0]] + Without(columns[1..], name))[1..] == Without(columns[1..], name);
      } else {
        assert [] + Without(columns[1..], name) == Without(columns[1..], name);
      }
    }
  }

  function Occurrences(columns: seq<string>, name: string): nat {
    if columns == [] then 0 else (if columns[0] == name then 1 else 0) + Occurrences(columns[1..], name)
  }

  lemma {:induction false} WithoutCount(columns: seq<string>, name: string)
    ensures |Without(columns, name)| + Occurrences(columns, name) == |columns|
  {
    if columns != [] { WithoutCount(columns[1..], name); }
  }

  /** The value beside the first column of that name. */
  function ValueOf(columns: seq<string>, values: seq<string>, name: string): Option<string> {
    var i := IndexOf(columns, name);
    if 0 <= i < |values| then Some(values[i]) else None
  }

  lemma ValueOfTail(columns: seq<string>, values: seq<string>, name: string)
    requires |columns| == |values| && columns != []
    ensures ValueOf(columns, values, name) == if columns[0] == name then Some(values[0])
                                              else ValueOf(columns[1..], values[1..], name)
  {
  }

  /** Dropping a column and the value at its first place keeps every other column beside its value. */
  lemma {:induction false} DropColumn(columns: seq<string>, values: seq<string>, name: string, other: string)
    requires |columns| == |values| && NoDup(columns) && other != name
    requires IndexOf(columns, name) >= 0
    ensures var i := IndexOf(columns, name);
            ValueOf(Without(columns, name), values[..i] + values[i + 1..], other) == ValueOf(columns, values, other)
  {
    hide ValueOf, NoDup, Without;
    var i := IndexOf(columns, name);
    NoDupTail(columns);
    ValueOfTail(columns, values, other);
    WithoutFirst(columns, name);
    if columns[0] == name {
      AbsentKept(columns[1..], name);
      assert i == 0 && values[..i] + values[i + 1..] == values[1..];
    } else {
      DropColumn(columns[1..], values[1..], name, other);
      var less := Without(columns[1..], name);
      var rest := values[1..][..i - 1] + values[1..][i..];
      assert values[..i] + values[i + 1..] == [values[0]] + rest;
      WithoutCount(columns[1..], name);
      OccursOnce(columns[1..], name);
      assert ([columns[0]] + less)[1..] == less && ([values[0]] + rest)[1..] == rest;
      ValueOfTail([columns[0]] + less, [values[0]] + rest, other);
    }
  }

  lemma WithoutFirst(columns: seq<string>, name: string)
    requires columns != []
    ensures Without(columns, name)
         == if columns[0] == name then Without(columns[1..], name) else [columns[0]] + Without(columns[1..], name)
  {
    assert [] + Without(columns[1..], name) == Without(columns[1..], name);
  }

  lemma {:induction false} AbsentKept(columns: seq<string>, name: string)
    requires forall j :: 0 <= j < |columns| ==> columns[j] != name
    ensures Without(columns, name) == columns && Occurrences(columns, name) == 0
  {
    if columns != [] {
      AbsentKept(columns[1..], name);
      assert columns == [columns[0]] + columns[1..];
    }
  }

  /** Putting a new column and value at one place keeps every other column beside its value. */
  lemma {:induction false} InsertColumn(columns: seq<string>, values: seq<string>, at: nat, name: string,
        value: string, other: string)
    requires |columns| == |values| && at <= |columns| && name != other
    ensures ValueOf(columns[..at] + [name] + columns[at..], values[..at] + [value] + values[at..], other)
         == ValueOf(columns, values, other)
    decreases at
  {
    hide ValueOf;
    var cs, vs := columns[..at] + [name] + columns[at..], values[..at] + [value] + values[at..];
    ValueOfTail(cs, vs, other);
    if at == 0 {
      assert cs[1..] == columns && vs[1..] == values;
    } else {
      ValueOfTail(columns, values, other);
      assert cs[1..] == columns[1..][..at - 1] + [name] + columns[1..][at - 1..];
      assert vs[1..] == values[1..][..at - 1] + [value] + values[1..][at - 1..];
      InsertColumn(columns[1..], values[1..], at - 1, name, value, other);
    }
  }

  lemma {:induction false} OccursOnce(columns: seq<string>, name: string)
    ensures IndexOf(columns, name) >= 0 <==> Occurrences(columns, name) > 0
    ensures NoDup(columns) ==> Occurrences(columns, name) <= 1
  {
    if columns != [] {
      OccursOnce(columns[1..], name);
      if NoDup(columns) {
        NoDupTail(columns);
        if columns[0] == name { AbsentKept(columns[1..], name); }
      }
    }
  }

  predicate Touched(table: Table, name: string) {
    match table
    case DictItem => name == ORDER
    case Menu => name == IS_EXT
    case Role => name == DEFAULT
    case User => name == IS_SUPER_ADMIN
    case Other => false
  }

  /** No value changes but that of the first column of that name. */
  predicate OthersKept(columns: seq<string>, name: string, values: seq<string>, vs: seq<string>) {
    |vs| == |values| && forall k :: 0 <= k < |values| && k != IndexOf(columns, name) ==> vs[k] == values[k]
  }

  /** `t` is `s` without the element at that place; a negative place is none. */
  predicate RemovedAt(s: seq<string>, t: seq<string>, at: int) {
    if at < 0 then t == s else at < |s| && |t| == |s| - 1 && t[..at] == s[..at] && t[at..] == s[at + 1..]
  }

  /** `t` is `s` with `x` put in at that place. */
  predicate AddedAt(s: seq<string>, t: seq<string>, at: nat, x: string) {
    at <= |s| && |t| == |s| + 1 && t[..at] == s[..at] && t[at] == x && t[at + 1..] == s[at..]
  }

  /** Columns and values stay aligned exactly when `order` is not repeated; untouched columns keep their values. */
  method TransformInsert(table: Table, columns: seq<string>, values: seq<string>)
    returns (cs: seq<string>, vs: seq<string>)
    requires |columns| == |values|
    ensures |cs| == |vs| <==> !(table == DictItem && Occurrences(columns, ORDER) > 1)
    ensures NoDup(columns) ==>
              forall name :: !Touched(table, name) ==> ValueOf(cs, vs, name) == ValueOf(columns, values, name)
    ensures table == DictItem ==> LeftOf(cs, columns) && |cs| + Occurrences(columns, ORDER) == |columns| && ORDER !in cs
    ensures table == DictItem ==> RemovedAt(values, vs, IndexOf(columns, ORDER))
    ensures table != DictItem && table != User ==> cs == columns
    ensures table == Menu ==> OthersKept(columns, IS_EXT, values, vs)
    ensures table == Role ==> OthersKept(columns, DEFAULT, values, vs)
    ensures table == Other ==> vs == values
    ensures table == User ==> AddedAt(columns, cs, IndexOf(columns, USERNAME) + 1, IS_SUPER_ADMIN)
    ensures table == User ==> AddedAt(values, vs, IndexOf(columns, USERNAME) + 1,
                                      if values != [] && values[0] == "1" then "true" else "false")
    ensures table == Menu && IS_EXT in columns
        ==> ValueOf(cs, vs, IS_EXT) == Some(if ValueOf(columns, values, IS_EXT) == Some("1") then "true" else "false")
    ensures table == Role && DEFAULT in columns ==>
              ValueOf(cs, vs, DEFAULT) == Some(var v := ValueOf(columns, values, DEFAULT).value;
                                               if v == "1" then "true" else if v == "0" then "false" else v)
    ensures table == User && USERNAME in columns && IS_SUPER_ADMIN !in columns ==>
              ValueOf(cs, vs, IS_SUPER_ADMIN) == Some(if values[0] == "1" then "true" else "false")
  {
    hide ORDER, IS_EXT, DEFAULT, USERNAME, IS_SUPER_ADMIN;
    cs, vs := columns, values;
    match table {
      case DictItem => cs, vs := DropOrder(columns, values);
      case Menu =>
        var i := IndexOf(columns, IS_EXT);
        if i >= 0 { vs := vs[i := if vs[i] == "1" then "true" else "false"]; }
      case Role =>
        var i := IndexOf(columns, DEFAULT);
        if i >= 0 {
          if vs[i] == "1" { vs := vs[i := "true"]; }
          if vs[i] == "0" { vs := vs[i := "false"]; }
        }
      case User => cs, vs := AddSuperAdmin(columns, values);
      case Other =>
    }
  }

  method DropOrder(columns: seq<string>, values: seq<string>) returns (cs: seq<string>, vs: seq<string>)
    requires |columns| == |values|
    ensures |cs| == |vs| <==> Occurrences(columns, ORDER) <= 1
    ensures NoDup(columns) ==> forall name :: name != ORDER ==> ValueOf(cs, vs, name) == ValueOf(columns, values, name)
    ensures LeftOf(cs, columns) && |cs| + Occurrences(columns, ORDER) == |columns| && ORDER !in cs
    ensures RemovedAt(values, vs, IndexOf(columns, ORDER))
  {
    hide ORDER, ValueOf, NoDup, LeftOf, Without;
    WithoutIsLeft(columns, ORDER);
    cs, vs := columns, values;
    var i := IndexOf(columns, ORDER);
    WithoutCount(columns, ORDER);
    OccursOnce(columns, ORDER);
    if i >= 0 {
      cs, vs := Without(columns, ORDER), values[..i] + values[i + 1..];
      WithoutHasNone(columns, ORDER);
      if NoDup(columns) {
        forall name | name != ORDER ensures ValueOf(cs, vs, name) == ValueOf(columns, values, name) {
          DropColumn(columns, values, ORDER, name);
        }
      }
    } else {
      AbsentKept(columns, ORDER);
    }
  }

  lemma {:induction false} WithoutHasNone(columns: seq<string>, name: string)
    ensures name !in Without(columns, name)
  {
    if columns != [] { WithoutHasNone(columns[1..], name); }
  }

  method AddSuperAdmin(columns: seq<string>, values: seq<string>) returns (cs: seq<string>, vs: seq<string>)
    requires |columns| == |values|
    ensures |cs| == |vs|
    ensures AddedAt(columns, cs, IndexOf(columns, USERNAME) + 1, IS_SUPER_ADMIN)
    ensures AddedAt(values, vs, IndexOf(columns, USERNAME) + 1,
                    if values != [] && values[0] == "1" then "true" else "false")
    ensures forall name :: name != IS_SUPER_ADMIN ==> ValueOf(cs, vs, name) == ValueOf(columns, values, name)
    ensures USERNAME in columns && IS_SUPER_ADMIN !in columns ==>
              ValueOf(cs, vs, IS_SUPER_ADMIN) == Some(if values[0] == "1" then "true" else "false")
  {
    hide USERNAME, IS_SUPER_ADMIN;
    var at := IndexOf(columns, USERNAME) + 1;
    var isAdmin := if values != [] && values[0] == "1" then "true" else "false";
    cs, vs := columns[..at] + [IS_SUPER_ADMIN] + columns[at..], values[..at] + [isAdmin] + values[at..];
    forall name | name != IS_SUPER_ADMIN ensures ValueOf(cs, vs, name) == ValueOf(columns, values, name) {
      InsertColumn(columns, values, at, IS_SUPER_ADMIN, isAdmin, name);
    }
    if USERNAME in columns && IS_SUPER_ADMIN !in columns {
      assert cs[at] == IS_SUPER_ADMIN && vs[at] == isAdmin;
      assert forall k :: 0 <= k < at ==> cs[k] == columns[k] && columns[k] in columns;
    }
  }
}
