/** The product page's reading of the stored `sizes` and `colors` text:
    comma-separated labels, trimmed, and for sizes stripped of quote and
    bracket characters. */
module SizeParsing {
  import opened Store

  /** JavaScript's white space and line terminators, which `trim` removes. */
  predicate IsSpace(c: char)
  {
    var n := c as int;
    n == 0x09 || n == 0x0A || n == 0x0B || n == 0x0C || n == 0x0D || n == 0x20
    || n == 0xA0 || n == 0x1680 || (0x2000 <= n <= 0x200A) || n == 0x2028
    || n == 0x2029 || n == 0x202F || n == 0x205F || n == 0x3000 || n == 0xFEFF
  }

  /** The characters of the pattern `/['"[\]]/g`. */
  predicate IsQuoteOrBracket(c: char)
  {
    c == '\'' || c == '"' || c == '[' || c == ']'
  }

  function TrimStart(s: string): (r: string)
    ensures |r| <= |s| && r == s[|s| - |r|..]
    ensures forall i :: 0 <= i < |s| - |r| ==> IsSpace(s[i])
    ensures r == [] || !IsSpace(r[0])
  {
    if s != [] && IsSpace(s[0]) then TrimStart(s[1..]) else s
  }

  function TrimEnd(s: string): (r: string)
    ensures |r| <= |s| && r == s[..|r|]
    ensures forall i :: |r| <= i < |s| ==> IsSpace(s[i])
    ensures r == [] || !IsSpace(r[|r| - 1])
  {
    if s != [] && IsSpace(s[|s| - 1]) then TrimEnd(s[..|s| - 1]) else s
  }

  /** How many leading white-space characters `s.trim()` drops. */
  function Lead(s: string): nat
  {
    |s| - |TrimStart(s)|
  }

  /** `s.trim()` */
  function Trim(s: string): string
  {
    TrimEnd(TrimStart(s))
  }

  /** `s.trim()` is the slice of `s` left after dropping the white space at
      both ends, and it starts and ends with a non-space character. */
  lemma TrimSlice(s: string)
    ensures Lead(s) + |Trim(s)| <= |s|
    ensures forall j :: 0 <= j < |Trim(s)| ==> Trim(s)[j] == s[Lead(s) + j]
    ensures forall i :: 0 <= i < Lead(s) ==> IsSpace(s[i])
    ensures forall i :: Lead(s) + |Trim(s)| <= i < |s| ==> IsSpace(s[i])
    ensures Trim(s) == [] || (!IsSpace(Trim(s)[0]) && !IsSpace(Trim(s)[|Trim(s)| - 1]))
  {
    TrimKeepsMiddle(s);
    TrimDropsSpace(s);
    TrimEndsSolid(s);
  }

  lemma TrimKeepsMiddle(s: string)
    ensures Lead(s) + |Trim(s)| <= |s|
    ensures forall j :: 0 <= j < |Trim(s)| ==> Trim(s)[j] == s[Lead(s) + j]
  {
    SliceOfSlice(s, TrimStart(s), Trim(s));
  }

  /** A prefix `r` of a suffix `t` of `s` is the slice of `s` that starts
      where `t` does. */
  lemma SliceOfSlice(s: string, t: string, r: string)
    requires |t| <= |s| && t == s[|s| - |t|..]
    requires |r| <= |t| && r == t[..|r|]
    ensures forall j :: 0 <= j < |r| ==> r[j] == s[|s| - |t| + j]
  {
  }

  lemma TrimDropsSpace(s: string)
    ensures forall i :: 0 <= i < Lead(s) ==> IsSpace(s[i])
    ensures forall i :: Lead(s) + |Trim(s)| <= i < |s| ==> IsSpace(s[i])
  {
    var t := TrimStart(s);
    StartPointwise(s);
    EndPointwise(t);
    TrimFacts(s, t, TrimEnd(t));
  }

  lemma TrimEndsSolid(s: string)
    ensures Trim(s) == [] || (!IsSpace(Trim(s)[0]) && !IsSpace(Trim(s)[|Trim(s)| - 1]))
  {
    var t := TrimStart(s);
    StartPointwise(s);
    EndPointwise(t);
    TrimFacts(s, t, TrimEnd(t));
  }

  lemma StartPointwise(s: string)
    ensures forall i :: 0 <= i < |TrimStart(s)| ==> TrimStart(s)[i] == s[|s| - |TrimStart(s)| + i]
  {
  }

  lemma EndPointwise(t: string)
    ensures forall i :: 0 <= i < |TrimEnd(t)| ==> TrimEnd(t)[i] == t[i]
  {
  }

  /** The two halves of `trim` composed: `t` drops the leading white space
      of `s` and `r` the trailing white space of `t`. */
  lemma TrimFacts(s: string, t: string, r: string)
    requires |t| <= |s| && forall i :: 0 <= i < |t| ==> t[i] == s[|s| - |t| + i]
    requires forall i :: 0 <= i < |s| - |t| ==> IsSpace(s[i])
    requires t == [] || !IsSpace(t[0])
    requires |r| <= |t| && forall i :: 0 <= i < |r| ==> r[i] == t[i]
    requires forall i :: |r| <= i < |t| ==> IsSpace(t[i])
    requires r == [] || !IsSpace(r[|r| - 1])
    ensures forall j :: 0 <= j < |r| ==> r[j] == s[|s| - |t| + j]
    ensures forall i :: |s| - |t| + |r| <= i < |s| ==> IsSpace(s[i])
    ensures r == [] || !IsSpace(r[0])
  {
    var k := |s| - |t|;
    forall i | k + |r| <= i < |s| ensures IsSpace(s[i]) {
      assert s[i] == t[i - k];
    }
    if r != [] {
      assert r[0] == t[0];
    }
  }

  /** Trimming again changes nothing. */
  lemma TrimIdempotent(s: string)
    ensures Trim(Trim(s)) == Trim(s)
  {
    var t := Trim(s);
    assert TrimStart(t) == t;
    assert TrimEnd(t) == t;
  }

  /** `s.replace(/['"[\]]/g, '')` */
  function StripQuotes(s: string): (r: string)
    ensures forall i :: 0 <= i < |r| ==> !IsQuoteOrBracket(r[i])
  {
    if s == [] then []
    else
      assert s == [s[0]] + s[1..];
      (if IsQuoteOrBracket(s[0]) then [] else [s[0]]) + StripQuotes(s[1..])
  }

  /** Stripping keeps every other character as often as it occurs. */
  lemma {:induction false} StripKeeps(s: string)
    ensures forall c :: !IsQuoteOrBracket(c) ==> multiset(StripQuotes(s))[c] == multiset(s)[c]
  {
    if s != [] {
      StripKeeps(s[1..]);
      assert s == [s[0]] + s[1..];
    }
  }

  /** Stripping works character by character and keeps the order: the
      stripped text of a concatenation is the concatenation of the stripped
      parts. With the contract of `StripQuotes`, which fixes the one-character
      case, this determines the result. */
  lemma {:induction false} StripAppend(a: string, b: string)
    ensures StripQuotes(a + b) == StripQuotes(a) + StripQuotes(b)
  {
    if a == [] {
      assert a + b == b;
    } else {
      var h := if IsQuoteOrBracket(a[0]) then [] else [a[0]];
      TailOfAppend(a, b);
      StripAppend(a[1..], b);
      AppendAssoc(h, StripQuotes(a[1..]), StripQuotes(b));
    }
  }

  lemma TailOfAppend(a: string, b: string)
    requires a != []
    ensures a + b != [] && (a + b)[0] == a[0] && (a + b)[1..] == a[1..] + b
  {
  }

  lemma AppendAssoc(h: string, x: string, y: string)
    ensures (h + x) + y == h + (x + y)
  {
  }

  /** `s.split(sep)` for a one-character separator: the pieces between the
      separators, empty pieces included. */
  function Split(s: string, sep: char): (parts: seq<string>)
    ensures |parts| >= 1
    ensures forall i :: 0 <= i < |parts| ==> sep !in parts[i]
  {
    if s == [] then [""]
    else
      var rest := Split(s[1..], sep);
      if s[0] == sep then [""] + rest
      else [[s[0]] + rest[0]] + rest[1..]
  }

  /** `parts.join(sep)` */
  function Join(parts: seq<string>, sep: char): string
    requires |parts| >= 1
  {
    if |parts| == 1 then parts[0] else parts[0] + [sep] + Join(parts[1..], sep)
  }

  /** Joining the pieces with the separator gives back the text. */
  lemma {:induction false} JoinSplit(s: string, sep: char)
    ensures Join(Split(s, sep), sep) == s
  {
    if s != [] {
      JoinSplit(s[1..], sep);
      var rest := Split(s[1..], sep);
      if s[0] != sep {
        var parts := Split(s, sep);
        assert parts[1..] == rest[1..];
        if |rest| > 1 {
          assert Join(rest, sep) == rest[0] + [sep] + Join(rest[1..], sep);
        }
      }
    }
  }

  /** Splitting a join of separator-free pieces gives back the pieces. */
  lemma {:induction false} SplitJoin(parts: seq<string>, sep: char)
    requires |parts| >= 1
    requires forall i :: 0 <= i < |parts| ==> sep !in parts[i]
    ensures Split(Join(parts, sep), sep) == parts
    decreases |parts|, |parts[0]|
  {
    var p := parts[0];
    if |parts| == 1 {
      SplitPlain(p, sep);
    } else if p == [] {
      SplitJoin(parts[1..], sep);
      assert Join(parts, sep) == [sep] + Join(parts[1..], sep);
      assert Join(parts, sep)[1..] == Join(parts[1..], sep);
      assert parts == [""] + parts[1..];
    } else {
      var shorter := [p[1..]] + parts[1..];
      assert shorter[1..] == parts[1..];
      SplitJoin(shorter, sep);
      assert Join(shorter, sep) == p[1..] + [sep] + Join(parts[1..], sep);
      assert Join(parts, sep)[1..] == Join(shorter, sep);
      assert [p[0]] + p[1..] == p;
      assert parts == [[p[0]] + p[1..]] + parts[1..];
    }
  }

  /** A text without the separator is one piece. */
  lemma {:induction false} SplitPlain(s: string, sep: char)
    requires sep !in s
    ensures Split(s, sep) == [s]
  {
    if s != [] {
      SplitPlain(s[1..], sep);
      assert s == [s[0]] + s[1..];
    }
  }

  /** `s.split(sep)` has one piece more than `s` has separators. */
  lemma {:induction false} SplitCount(s: string, sep: char)
    ensures |Split(s, sep)| == multiset(s)[sep] + 1
  {
    if s != [] {
      SplitCount(s[1..], sep);
      assert s == [s[0]] + s[1..];
    }
  }


  /** Text whose trimmed form starts with `[` is read as a JSON array. */
  predicate LooksLikeJson(raw: string)
  {
    var t := Trim(raw);
    |t| > 0 && t[0] == '['
  }

  /** The JSON test looks at the first character after the leading white
      space: it is `[` exactly when the text is read as a JSON array. */
  lemma JsonShape(raw: string)
    ensures LooksLikeJson(raw) <==>
              exists k :: 0 <= k < |raw| && raw[k] == '[' && forall i :: 0 <= i < k ==> IsSpace(raw[i])
  {
    TrimSlice(raw);
    var t := Trim(raw);
    var k0 := Lead(raw);
    if |t| > 0 && t[0] == '[' {
      assert raw[k0] == t[0];
    }
    if exists k :: 0 <= k < |raw| && raw[k] == '[' && forall i :: 0 <= i < k ==> IsSpace(raw[i]) {
      var k :| 0 <= k < |raw| && raw[k] == '[' && forall i :: 0 <= i < k ==> IsSpace(raw[i]);
      assert !IsSpace(raw[k]);
      assert k0 <= k;
      assert TrimStart(raw)[0] == raw[k0];
      assert k0 == k;
      assert |t| > 0;
      assert t[0] == raw[k];
    }
  }

  /** The stored sizes when the column holds text, otherwise the default list. */
  function SizesText(sizes: Option<string>): (r: string)
    ensures r != []
    ensures sizes.Some? && sizes.value != [] ==> r == sizes.value
    ensures sizes.None? || sizes.value == [] ==> r == "XS,S,M,L,XL"
  {
    if sizes.Some? && sizes.value != "" then sizes.value else "XS,S,M,L,XL"
  }

  /** The stored colours when the column holds text, otherwise `Black`. */
  function ColorsText(colors: Option<string>): (r: string)
    ensures r != []
    ensures colors.Some? && colors.value != [] ==> r == colors.value
    ensures colors.None? || colors.value == [] ==> r == "Black"
  {
    if colors.Some? && colors.value != "" then colors.value else "Black"
  }

  /** A piece without a comma gives a size label without a comma. */
  lemma NoCommaLabel(s: string)
    requires ',' !in s
    ensures ',' !in StripQuotes(Trim(s))
  {
    TrimSlice(s);
    var t := Trim(s);
    StripKeeps(t);
  }

  /** Each piece trimmed and stripped of quotes and brackets. */
  function SizeLabels(parts: seq<string>): (r: seq<string>)
    ensures |r| == |parts|
    ensures forall i :: 0 <= i < |r| ==> r[i] == StripQuotes(Trim(parts[i]))
    ensures forall i :: 0 <= i < |r| ==> ',' !in parts[i] ==> ',' !in r[i]
  {
    var r := seq(|parts|, i requires 0 <= i < |parts| => StripQuotes(Trim(parts[i])));
    forall i | 0 <= i < |r| && ',' !in parts[i] ensures ',' !in r[i] {
      NoCommaLabel(parts[i]);
    }
    r
  }

  /** The size buttons of the product page: piece `i` of the text split at
      commas, trimmed and stripped of quotes and brackets. `None` stands for
      the JSON-array form, which this model does not read. */
  function ParseSizes(sizes: Option<string>): (r: Option<seq<string>>)
    ensures r.None? <==> LooksLikeJson(SizesText(sizes))
    ensures r.Some? ==> |r.value| == |Split(SizesText(sizes), ',')|
    ensures r.Some? ==> forall i :: 0 <= i < |r.value| ==>
              r.value[i] == StripQuotes(Trim(Split(SizesText(sizes), ',')[i]))
    ensures r.Some? ==> |r.value| == multiset(SizesText(sizes))[','] + 1
    ensures r.Some? ==> forall i :: 0 <= i < |r.value| ==>
              ',' !in r.value[i] && forall j :: 0 <= j < |r.value[i]| ==> !IsQuoteOrBracket(r.value[i][j])
  {
    var raw := SizesText(sizes);
    if LooksLikeJson(raw) then None
    else
      SplitCount(raw, ',');
      Some(SizeLabels(Split(raw, ',')))
  }

  /** The product's colour list, whose first entry becomes the page's
      initial colour: piece `i` of the text split at commas, with its outer
      white space removed. */
  function ParseColors(colors: Option<string>): (r: seq<string>)
    ensures |r| == |Split(ColorsText(colors), ',')|
    ensures |r| >= 1
    ensures forall i :: 0 <= i < |r| ==> r[i] == Trim(Split(ColorsText(colors), ',')[i])
    ensures forall i :: 0 <= i < |r| ==> ',' !in r[i] && Trim(r[i]) == r[i]
  {
    var parts := Split(ColorsText(colors), ',');
    var r := seq(|parts|, i requires 0 <= i < |parts| => Trim(parts[i]));
    forall i | 0 <= i < |r| ensures ',' !in r[i] && Trim(r[i]) == r[i] {
      TrimSlice(parts[i]);
      TrimIdempotent(parts[i]);
    }
    r
  }

  /** A product without stored colours offers only Black. */
  lemma DefaultColors()
    ensures ParseColors(None) == ["Black"]
  {
    SplitPlain("Black", ',');
    TrimPlain("Black");
  }

  /** A piece with no outer white space and no quote or bracket is its own size label. */
  lemma CleanPlain(s: string)
    requires s == [] || (!IsSpace(s[0]) && !IsSpace(s[|s| - 1]))
    requires forall i :: 0 <= i < |s| ==> !IsQuoteOrBracket(s[i])
    ensures StripQuotes(Trim(s)) == s
  {
    calc {
      StripQuotes(Trim(s));
    == { TrimPlain(s); }
      StripQuotes(s);
    == { StripPlain(s); }
      s;
    }
  }

  lemma TrimPlain(s: string)
    requires s == [] || (!IsSpace(s[0]) && !IsSpace(s[|s| - 1]))
    ensures Trim(s) == s
  {
    assert TrimStart(s) == s;
  }

  lemma {:induction false} StripPlain(s: string)
    requires forall i :: 0 <= i < |s| ==> !IsQuoteOrBracket(s[i])
    ensures StripQuotes(s) == s
  {
    if s != [] {
      StripPlain(s[1..]);
    }
  }

  lemma DefaultSizesSplit()
    ensures Split("XS,S,M,L,XL", ',') == ["XS", "S", "M", "L", "XL"]
  {
    var labels := ["XS", "S", "M", "L", "XL"];
    assert Join(labels[4..], ',') == "XL";
    assert Join(labels[3..], ',') == "L,XL" by { assert labels[3..][1..] == labels[4..]; }
    assert Join(labels[2..], ',') == "M,L,XL" by { assert labels[2..][1..] == labels[3..]; }
    assert Join(labels[1..], ',') == "S,M,L,XL" by { assert labels[1..][1..] == labels[2..]; }
    assert Join(labels, ',') == "XS,S,M,L,XL";
    SplitJoin(labels, ',');
  }

  /** Text that is not JSON-shaped and splits into pieces without outer white
      space, quotes or brackets parses to exactly those pieces. */
  lemma ParsePlainSizes(raw: string, labels: seq<string>)
    requires raw != "" && !LooksLikeJson(raw) && Split(raw, ',') == labels
    requires forall i :: 0 <= i < |labels| ==>
               labels[i] == [] || (!IsSpace(labels[i][0]) && !IsSpace(labels[i][|labels[i]| - 1]))
    requires forall i :: 0 <= i < |labels| ==> forall j :: 0 <= j < |labels[i]| ==> !IsQuoteOrBracket(labels[i][j])
    ensures ParseSizes(Some(raw)) == Some(labels)
  {
    assert SizesText(Some(raw)) == raw;
    var r := ParseSizes(Some(raw));
    assert r.Some? && |r.value| == |labels|;
    forall i | 0 <= i < |labels| ensures r.value[i] == labels[i] {
      CleanPlain(labels[i]);
    }
    assert r.value == labels;
  }
}
