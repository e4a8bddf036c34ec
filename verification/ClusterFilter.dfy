/** internal/handlers/clickhouse/clickhouse.go: the WHERE clause that selects clusters. */
module ClusterFilters {
  import opened Collections

  // ---- printing -----------------------------------------------------------------

  /** The replacer of escape: a backslash before each backslash and quote. */
  function EscapeChars(name: string): string {
    if name == "" then ""
    else (if name[0] == '\\' || name[0] == '\'' then ['\\', name[0]] else [name[0]]) + EscapeChars(name[1..])
  }

  function Escape(name: string): string { "'" + EscapeChars(name) + "'" }

  /** The escaped names, separated by commas. */
  function Joined(names: seq<string>): string {
    if names == [] then ""
    else if |names| == 1 then Escape(names[0])
    else Escape(names[0]) + ", " + Joined(names[1..])
  }

  function FilterText(expr: string, names: seq<string>): string {
    "cluster " + expr + " (" + Joined(names) + ")"
  }

  /** strings.Join with ", ". */
  function JoinComma(parts: seq<string>): string {
    if parts == [] then ""
    else if |parts| == 1 then parts[0]
    else parts[0] + ", " + JoinComma(parts[1..])
  }

  lemma {:induction false} JoinEscaped(names: seq<string>, escaped: seq<string>)
    requires |escaped| == |names| && forall i :: 0 <= i < |names| ==> escaped[i] == Escape(names[i])
    ensures JoinComma(escaped) == Joined(names)
  {
    if |names| > 1 {
      JoinEscaped(names[1..], escaped[1..]);
    }
  }

  /** makeFilter: the names are escaped one by one, then joined. */
  method MakeFilter(expr: string, args: seq<string>) returns (text: string)
    ensures text == FilterText(expr, args)
  {
    var escaped := [];
    for i := 0 to |args|
      invariant |escaped| == i && forall j :: 0 <= j < i ==> escaped[j] == Escape(args[j])
    {
      escaped := escaped + [Escape(args[i])];
    }
    JoinEscaped(args, escaped);
    text := "cluster " + expr + " (" + JoinComma(escaped) + ")";
  }

  function Clause(included: seq<string>, excluded: seq<string>): string {
    if included == [] && excluded == [] then ""
    else if excluded == [] then "WHERE " + FilterText("IN", included)
    else if included == [] then "WHERE " + FilterText("NOT IN", excluded)
    else "WHERE " + FilterText("IN", included) + " OR " + FilterText("NOT IN", excluded)
  }

  /** clusterIncludeExcludeFilter */
  method ClusterIncludeExcludeFilter(included: seq<string>, excluded: seq<string>) returns (text: string)
    ensures text == Clause(included, excluded)
  {
    if |included| == 0 && |excluded| == 0 {
      return "";
    }
    var includeFilter, excludeFilter := "", "";
    if |included| != 0 {
      includeFilter := MakeFilter("IN", included);
    }
    if |excluded| != 0 {
      excludeFilter := MakeFilter("NOT IN", excluded);
    }
    if includeFilter != "" && excludeFilter != "" {
      return "WHERE " + includeFilter + " OR " + excludeFilter;
    }
    if includeFilter == "" && excludeFilter != "" {
      return "WHERE " + excludeFilter;
    }
    return "WHERE " + includeFilter;
  }

  // ---- reading ------------------------------------------------------------------

  /** The rest of a quoted literal, after its opening quote: what it denotes and what
      follows its closing quote. A backslash takes the next character literally. */
  function ReadLiteral(text: string): (r: Option<(string, string)>)
    ensures r.Some? ==> |r.value.1| < |text|
    decreases |text|
  {
    if text == "" then None
    else if text[0] == '\'' then Some(("", text[1..]))
    else if text[0] == '\\' then
      if |text| == 1 then None
      else
        var r := ReadLiteral(text[2..]);
        if r.None? then None else Some(([text[1]] + r.value.0, r.value.1))
    else
      var r := ReadLiteral(text[1..]);
      if r.None? then None else Some(([text[0]] + r.value.0, r.value.1))
  }

  /** A list of quoted literals up to and including the closing parenthesis. */
  function ReadList(text: string): (r: Option<(seq<string>, string)>)
    decreases |text|
  {
    if ")" <= text then Some(([], text[1..]))
    else if "'" <= text then
      var first := ReadLiteral(text[1..]);
      if first.None? then None
      else if ")" <= first.value.1 then Some(([first.value.0], first.value.1[1..]))
      else if ", '" <= first.value.1 then
        var rest := ReadList(first.value.1[2..]);
        if rest.None? then None else Some(([first.value.0] + rest.value.0, rest.value.1))
      else None
    else None
  }

  /** Text after a fixed word, if the text starts with it. */
  function Skip(word: string, text: string): (r: Option<string>)
    ensures r.Some? ==> text == word + r.value
  {
    if word <= text then Some(text[|word|..]) else None
  }

  /** A filter on clusters with the given operator: its list and what follows it. */
  function ReadFilter(expr: string, text: string): Option<(seq<string>, string)> {
    var atExpr := Skip("cluster ", text);
    if atExpr.None? then None
    else
      var atList := Skip(expr, atExpr.value);
      if atList.None? then None
      else
        var inList := Skip(" (", atList.value);
        if inList.None? then None else ReadList(inList.value)
  }

  /** The clusters a clause includes, and those it excludes. */
  function ReadClause(text: string): Option<(seq<string>, seq<string>)> {
    if text == "" then Some(([], []))
    else
      var filters := Skip("WHERE ", text);
      if filters.None? then None
      else
        var included := ReadFilter("IN", filters.value);
        if included.None? then
          var only := ReadFilter("NOT IN", filters.value);
          if only.None? || only.value.1 != "" then None else Some(([], only.value.0))
        else if included.value.1 == "" then Some((included.value.0, []))
        else
          var more := Skip(" OR ", included.value.1);
          if more.None? then None
          else
            var excluded := ReadFilter("NOT IN", more.value);
            if excluded.None? || excluded.value.1 != "" then None else Some((included.value.0, excluded.value.0))
  }

  // ---- round trips --------------------------------------------------------------

  /** Reading an escaped name gives the name back and stops exactly at its end: no quote
      inside a name ends its literal early. */
  lemma {:induction false} LiteralRoundTrip(name: string, after: string)
    ensures ReadLiteral(EscapeChars(name) + "'" + after) == Some((name, after))
    decreases |name|
  {
    var text := EscapeChars(name) + "'" + after;
    if name == "" {
      assert text == "'" + after && text[1..] == after;
    } else {
      LiteralRoundTrip(name[1..], after);
      var rest := EscapeChars(name[1..]) + "'" + after;
      if name[0] == '\\' || name[0] == '\'' {
        assert text == ['\\', name[0]] + rest && text[2..] == rest;
      } else {
        assert text == [name[0]] + rest && text[1..] == rest;
      }
      assert name == [name[0]] + name[1..];
    }
  }

  lemma EscapeInjective(a: string, b: string)
    requires Escape(a) == Escape(b)
    ensures a == b
  {
    LiteralRoundTrip(a, "");
    LiteralRoundTrip(b, "");
    assert EscapeChars(a) == Escape(a)[1..|Escape(a)| - 1] && EscapeChars(b) == Escape(b)[1..|Escape(b)| - 1];
  }

  /** A printed list and what follows it, as the reader meets them. */
  function ListText(names: seq<string>, after: string): string
    decreases |names|, 0
  {
    if names == [] then ")" + after
    else "'" + (EscapeChars(names[0]) + "'" + TailText(names[1..], after))
  }

  function TailText(names: seq<string>, after: string): string
    decreases |names|, 1
  {
    if names == [] then ")" + after else ", " + ListText(names, after)
  }

  lemma Regroup(e: string, tail: string)
    ensures ("'" + e + "'") + tail == "'" + (e + "'" + tail)
  {
  }

  lemma {:induction false} JoinedText(names: seq<string>, after: string)
    ensures Joined(names) + ")" + after == ListText(names, after)
    decreases |names|
  {
    if |names| == 1 {
      var e := EscapeChars(names[0]);
      assert names[1..] == [];
      Regroup(e, ")" + after);
      assert Joined(names) + ")" + after == ("'" + e + "'") + (")" + after);
    } else if |names| > 1 {
      var e, j := EscapeChars(names[0]), Joined(names[1..]);
      JoinedText(names[1..], after);
      Regroup(e, ", " + (j + ")" + after));
      assert Joined(names) + ")" + after == ("'" + e + "'") + (", " + (j + ")" + after));
    }
  }

  /** A literal that ends the list. */
  lemma ReadLast(body: string, name: string, after: string)
    requires ReadLiteral(body) == Some((name, ")" + after))
    ensures ReadList("'" + body) == Some(([name], after))
  {
    var text, tail := "'" + body, ")" + after;
    assert text[1..] == body && text[0] == '\'' && tail[1..] == after;
  }

  /** A literal that another one follows. */
  lemma ReadNext(body: string, name: string, rest: string)
    requires ReadLiteral(body) == Some((name, ", " + rest)) && rest != "" && rest[0] == '\''
    requires ReadList(rest).Some?
    ensures ReadList("'" + body) == Some(([name] + ReadList(rest).value.0, ReadList(rest).value.1))
  {
    var text, tail := "'" + body, ", " + rest;
    assert text[1..] == body && text[0] == '\'';
    assert tail[2..] == rest && tail[0] == ',' && tail[1] == ' ' && tail[2] == '\'';
    assert tail[..3] == ", '";
  }

  /** Reading a printed list gives exactly that list. */
  lemma {:induction false} ListRoundTrip(names: seq<string>, after: string)
    ensures ReadList(ListText(names, after)) == Some((names, after))
    decreases |names|
  {
    if names == [] {
      assert (")" + after)[1..] == after;
    } else {
      var tail := TailText(names[1..], after);
      var body := EscapeChars(names[0]) + "'" + tail;
      LiteralRoundTrip(names[0], tail);
      assert ListText(names, after) == "'" + body;
      if |names| == 1 {
        assert names[1..] == [] && tail == ")" + after;
        ReadLast(body, names[0], after);
        assert names == [names[0]];
      } else {
        var rest := ListText(names[1..], after);
        ListRoundTrip(names[1..], after);
        assert tail == ", " + rest && rest[0] == '\'';
        ReadNext(body, names[0], rest);
        assert names == [names[0]] + names[1..];
      }
    }
  }

  lemma SkipWord(word: string, text: string)
    ensures Skip(word, word + text) == Some(text)
  {
  }

  lemma FilterRoundTrip(expr: string, names: seq<string>, after: string)
    ensures ReadFilter(expr, FilterText(expr, names) + after) == Some((names, after))
  {
    var list := Joined(names) + ")" + after;
    JoinedText(names, after);
    ListRoundTrip(names, after);
    assert FilterText(expr, names) + after == "cluster " + (expr + (" (" + list));
    SkipWord("cluster ", expr + (" (" + list));
    SkipWord(expr, " (" + list);
    SkipWord(" (", list);
  }

  lemma NotInIsNotIn(names: seq<string>, after: string)
    ensures ReadFilter("IN", FilterText("NOT IN", names) + after) == None
  {
    var rest := " (" + Joined(names) + ")" + after;
    assert FilterText("NOT IN", names) + after == "cluster " + ("NOT IN" + rest);
    SkipWord("cluster ", "NOT IN" + rest);
    assert ("NOT IN" + rest)[0] == 'N';
  }

  lemma ReadBoth(filters: string, more: string, included: seq<string>, excluded: seq<string>)
    requires ReadFilter("IN", filters) == Some((included, " OR " + more))
    requires ReadFilter("NOT IN", more) == Some((excluded, ""))
    ensures ReadClause("WHERE " + filters) == Some((included, excluded))
  {
    SkipWord("WHERE ", filters);
    SkipWord(" OR ", more);
  }

  lemma Chain(a: string, b: string, c: string, d: string)
    ensures a + b + c + d == a + (b + (c + d))
  {
  }

  lemma BothRoundTrip(included: seq<string>, excluded: seq<string>)
    requires included != [] && excluded != []
    ensures ReadClause(Clause(included, excluded)) == Some((included, excluded))
  {
    var first, second := FilterText("IN", included), FilterText("NOT IN", excluded);
    assert second + "" == second;
    FilterRoundTrip("IN", included, " OR " + second);
    FilterRoundTrip("NOT IN", excluded, "");
    ReadBoth(first + (" OR " + second), second, included, excluded);
    Chain("WHERE ", first, " OR ", second);
  }

  lemma IncludedRoundTrip(included: seq<string>)
    requires included != []
    ensures ReadClause(Clause(included, [])) == Some((included, []))
  {
    var text := FilterText("IN", included);
    assert text + "" == text;
    SkipWord("WHERE ", text);
    FilterRoundTrip("IN", included, "");
  }

  lemma ExcludedRoundTrip(excluded: seq<string>)
    requires excluded != []
    ensures ReadClause(Clause([], excluded)) == Some(([], excluded))
  {
    var text := FilterText("NOT IN", excluded);
    assert text + "" == text;
    SkipWord("WHERE ", text);
    FilterRoundTrip("NOT IN", excluded, "");
    NotInIsNotIn(excluded, "");
  }

  /** Reading the printed clause gives exactly the two lists, for all lists. */
  lemma ClauseRoundTrip(included: seq<string>, excluded: seq<string>)
    ensures ReadClause(Clause(included, excluded)) == Some((included, excluded))
  {
    if included != [] && excluded != [] {
      BothRoundTrip(included, excluded);
    } else if included != [] {
      IncludedRoundTrip(included);
    } else if excluded != [] {
      ExcludedRoundTrip(excluded);
    }
  }
}
