/** The joined columns of a stored message: recipients with ", ", split and trimmed when shown, and route names with ",". */
module Recipients {
  /** Unicode white space, as the trimming code understands it. */
  predicate IsSpace(c: char) {
    || '\t' <= c <= '\r' || c == ' ' || c == '\U{85}' || c == '\U{A0}' || c == '\U{1680}'
    || '\U{2000}' <= c <= '\U{200A}' || c == '\U{2028}' || c == '\U{2029}' || c == '\U{202F}'
    || c == '\U{205F}' || c == '\U{3000}'
  }

  /** Parts with a separator between them. */
  function Join(sep: string, parts: seq<string>): string {
    if parts == [] then ""
    else if |parts| == 1 then parts[0]
    else parts[0] + sep + Join(sep, parts[1..])
  }

  /** The pieces between commas; always at least one. */
  function SplitCommas(s: string): (r: seq<string>)
    ensures r != []
    ensures forall i :: 0 <= i < |r| ==> ',' !in r[i]
  {
    if s == "" then [""]
    else
      var rest := SplitCommas(s[1..]);
      if s[0] == ',' then [""] + rest else [[s[0]] + rest[0]] + rest[1..]
  }

  function TrimLeft(s: string): (r: string)
    ensures r == "" || !IsSpace(r[0])
    ensures forall c :: c in r ==> c in s
  {
    if s != "" && IsSpace(s[0]) then TrimLeft(s[1..]) else s
  }

  function TrimRight(s: string): (r: string)
    ensures r == "" || !IsSpace(r[|r| - 1])
    ensures r <= s
  {
    if s != "" && IsSpace(s[|s| - 1]) then TrimRight(s[..|s| - 1]) else s
  }

  function Trim(s: string): string {
    TrimRight(TrimLeft(s))
  }

  predicate Trimmed(s: string) {
    s == "" || (!IsSpace(s[0]) && !IsSpace(s[|s| - 1]))
  }

  lemma TrimmedFixed(s: string)
    ensures Trimmed(s) <==> Trim(s) == s
  {
    if Trim(s) == s && s != "" {
      var t := TrimLeft(s);
      assert |t| <= |s| by { TrimLeftShortens(s); }
      assert t == s;
    }
  }

  lemma TrimLeftShortens(s: string)
    ensures |TrimLeft(s)| <= |s|
    ensures s != "" && IsSpace(s[0]) ==> |TrimLeft(s)| < |s|
  {
    if s != "" && IsSpace(s[0]) {
      TrimLeftShortens(s[1..]);
    }
  }

  lemma TrimIsTrimmed(s: string)
    ensures Trimmed(Trim(s))
  {
    var t := TrimLeft(s);
    var r := TrimRight(t);
    assert r != "" ==> r[0] == t[0];
  }

  function TrimAll(parts: seq<string>): (r: seq<string>)
    ensures |r| == |parts|
    ensures forall i :: 0 <= i < |r| ==> r[i] == Trim(parts[i])
  {
    if parts == [] then [] else [Trim(parts[0])] + TrimAll(parts[1..])
  }

  /** Splits and then trims the pieces one by one, in place. */
  method SplitRcpt(s: string) returns (parts: seq<string>)
    ensures parts == TrimAll(SplitCommas(s))
  {
    parts := SplitCommas(s);
    ghost var pieces := parts;
    for i := 0 to |parts|
      invariant |parts| == |pieces|
      invariant forall j :: 0 <= j < i ==> parts[j] == Trim(pieces[j])
      invariant forall j :: i <= j < |parts| ==> parts[j] == pieces[j]
    {
      parts := parts[i := Trim(parts[i])];
    }
  }

  lemma {:induction false} SplitFirst(head: string, tail: string)
    requires ',' !in head
    ensures SplitCommas(head) == [head]
    ensures SplitCommas(head + [','] + tail) == [head] + SplitCommas(tail)
  {
    if head == "" {
      assert head + [','] + tail == [','] + tail;
      assert ([','] + tail)[1..] == tail;
    } else {
      var all := head + [','] + tail;
      assert all[1..] == head[1..] + [','] + tail;
      assert head[0] in head && forall c :: c in head[1..] ==> c in head;
      SplitFirst(head[1..], tail);
      assert head == [head[0]] + head[1..];
    }
  }

  /** A leading blank joins the first piece only. */
  lemma SplitBlank(s: string)
    ensures var r := SplitCommas(s); SplitCommas([' '] + s) == [[' '] + r[0]] + r[1..]
  {
    assert ([' '] + s)[1..] == s;
  }

  lemma BlankIsTrimmed(s: string)
    ensures TrimAll(SplitCommas([' '] + s)) == TrimAll(SplitCommas(s))
  {
    SplitBlank(s);
    var pieces := SplitCommas(s);
    assert ([' '] + pieces[0])[1..] == pieces[0];
    assert Trim([' '] + pieces[0]) == Trim(pieces[0]);
  }

  predicate Clean(s: string) {
    ',' !in s && Trimmed(s)
  }

  /** The head comes back as the first piece, and the rest as the pieces of the rest. */
  lemma JoinHead(head: string, later: seq<string>)
    requires Clean(head) && later != []
    ensures TrimAll(SplitCommas(Join(", ", [head] + later))) == [head] + TrimAll(SplitCommas(Join(", ", later)))
  {
    var rest := Join(", ", later);
    assert ([head] + later)[1..] == later;
    assert Join(", ", [head] + later) == head + [','] + ([' '] + rest) by { CommaBlank(head, rest); }
    SplitFirst(head, [' '] + rest);
    BlankIsTrimmed(rest);
    TrimHead(head, SplitCommas([' '] + rest));
  }

  lemma CommaBlank(head: string, rest: string)
    ensures head + ", " + rest == head + [','] + ([' '] + rest)
  {
  }

  lemma {:induction false} RoundTrip(parts: seq<string>)
    requires parts != [] && forall i :: 0 <= i < |parts| ==> Clean(parts[i])
    ensures TrimAll(SplitCommas(Join(", ", parts))) == parts
  {
    var head, later := parts[0], parts[1..];
    if later == [] {
      SplitFirst(head, "");
      TrimHead(head, []);
      assert parts == [head];
    } else {
      RoundTrip(later);
      JoinHead(head, later);
      assert parts == [head] + later;
    }
  }

  lemma TrimHead(head: string, rest: seq<string>)
    requires Trimmed(head)
    ensures TrimAll([head] + rest) == [head] + TrimAll(rest)
  {
    TrimmedFixed(head);
    assert ([head] + rest)[1..] == rest;
  }

  /** One part stands alone, and joined lists join with the separator between them. */
  lemma {:induction false} JoinAppends(sep: string, a: seq<string>, b: seq<string>)
    requires a != [] && b != []
    ensures Join(sep, a + b) == Join(sep, a) + sep + Join(sep, b)
    ensures |a| == 1 ==> Join(sep, a) == a[0]
    decreases a
  {
    if |a| == 1 {
      assert (a + b)[1..] == b;
    } else {
      JoinAppends(sep, a[1..], b);
      assert (a + b)[1..] == a[1..] + b;
      Regroup(a[0], sep, Join(sep, a[1..]), sep + Join(sep, b));
    }
  }

  lemma Regroup(a: string, b: string, c: string, d: string)
    ensures a + b + (c + d) == (a + b + c) + d
  {
  }

  /** Nothing is lost in splitting: the pieces joined with commas are the text. */
  lemma {:induction false} SplitJoins(s: string)
    ensures Join(",", SplitCommas(s)) == s
    decreases s
  {
    if s != "" {
      var rest := SplitCommas(s[1..]);
      SplitJoins(s[1..]);
      assert s == [s[0]] + s[1..];
      if s[0] == ',' {
        JoinAppends(",", [""], rest);
      } else {
        FirstPieceGrows(s[0], rest);
      }
    }
  }

  lemma FirstPieceGrows(c: char, rest: seq<string>)
    requires rest != []
    ensures Join(",", [[c] + rest[0]] + rest[1..]) == [c] + Join(",", rest)
  {
    if |rest| > 1 {
      var later := rest[1..];
      JoinAppends(",", [[c] + rest[0]], later);
      JoinAppends(",", [rest[0]], later);
      assert [rest[0]] + later == rest;
      Prefixed([c], rest[0], ",", Join(",", later));
    }
  }

  lemma Prefixed(a: string, b: string, c: string, d: string)
    ensures (a + b) + c + d == a + (b + c + d)
  {
  }

  lemma {:induction false} CommaFreeComeBack(parts: seq<string>)
    requires parts != [] && forall i :: 0 <= i < |parts| ==> ',' !in parts[i]
    ensures SplitCommas(Join(",", parts)) == parts
  {
    if |parts| == 1 {
      SplitFirst(parts[0], "");
    } else {
      CommaFreeComeBack(parts[1..]);
      SplitFirst(parts[0], Join(",", parts[1..]));
      assert Join(",", parts) == parts[0] + [','] + Join(",", parts[1..]);
    }
  }

  /** The column of route names gives the names back exactly when there are some and none holds a comma. */
  lemma NamesComeBackExactly(parts: seq<string>)
    ensures SplitCommas(Join(",", parts)) == parts <==> parts != [] && forall i :: 0 <= i < |parts| ==> ',' !in parts[i]
  {
    if parts != [] && forall i :: 0 <= i < |parts| ==> ',' !in parts[i] {
      CommaFreeComeBack(parts);
    }
  }

  // --- trimming ---

  predicate AllSpace(s: string) {
    forall c :: c in s ==> IsSpace(c)
  }

  lemma {:induction false} LeftIsSpace(s: string) returns (blank: string)
    ensures s == blank + TrimLeft(s) && AllSpace(blank)
    decreases s
  {
    blank := "";
    if s != "" && IsSpace(s[0]) {
      var rest := LeftIsSpace(s[1..]);
      blank := [s[0]] + rest;
    }
  }

  lemma {:induction false} RightIsSpace(s: string) returns (blank: string)
    ensures s == TrimRight(s) + blank && AllSpace(blank)
    decreases s
  {
    blank := "";
    if s != "" && IsSpace(s[|s| - 1]) {
      var rest := RightIsSpace(s[..|s| - 1]);
      blank := rest + [s[|s| - 1]];
    }
  }

  /** Trimming takes white space off both ends, all of it and nothing else. */
  lemma TrimExactly(s: string) returns (before: string, after: string)
    ensures s == before + Trim(s) + after && AllSpace(before) && AllSpace(after) && Trimmed(Trim(s))
  {
    before := LeftIsSpace(s);
    after := RightIsSpace(TrimLeft(s));
    TrimIsTrimmed(s);
  }

  /** The list comes back exactly when it is non-empty and every address is comma-free and trimmed. */
  lemma RoundTripExactly(parts: seq<string>)
    ensures TrimAll(SplitCommas(Join(", ", parts))) == parts <==>
      parts != [] && forall i :: 0 <= i < |parts| ==> Clean(parts[i])
  {
    var pieces := SplitCommas(Join(", ", parts));
    if TrimAll(pieces) == parts {
      forall i | 0 <= i < |parts|
        ensures Clean(parts[i])
      {
        TrimIsTrimmed(pieces[i]);
        assert forall c :: c in Trim(pieces[i]) ==> c in TrimLeft(pieces[i]);
      }
    }
    if parts != [] && forall i :: 0 <= i < |parts| ==> Clean(parts[i]) {
      RoundTrip(parts);
    }
  }
}
