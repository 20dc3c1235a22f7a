/**
 * The page headings of the two top bars (components/AdminTop.js and
 * components/CsrTop.js): the second segment of the path, in title case,
 * with the CSR bar's "CSR Dashboard" override.
 *
 * `toTitleCase` is `replace(/[-_]+/g, " ")`, `toLowerCase()`, `split(" ")`,
 * `filter(Boolean)`, upper-casing each word's first character, and
 * `join(" ")`; each step is a function below. Case mapping is ASCII only.
 */
module TitleCase {
  import opened Wrappers
  import opened Text
  import opened Lists

  predicate IsSep(c: char) {
    c == '-' || c == '_'
  }

  predicate NoSep(s: string) {
    forall i :: 0 <= i < |s| ==> !IsSep(s[i])
  }

  /** The suffix of `s` after its leading separators. */
  function SkipSeps(s: string): (r: string)
    ensures |r| <= |s| && r == s[|s| - |r|..]
    ensures r != [] ==> !IsSep(r[0])
  {
    if s != [] && IsSep(s[0]) then SkipSeps(s[1..]) else s
  }

  /** `replace(/[-_]+/g, " ")`: each maximal run of separators becomes one space. */
  function CollapseSeps(s: string): (r: string)
    ensures NoSep(r)
    ensures |r| <= |s|
    decreases |s|
  {
    if s == [] then []
    else if IsSep(s[0]) then " " + CollapseSeps(SkipSeps(s[1..]))
    else [s[0]] + CollapseSeps(s[1..])
  }

  /** A string without separators comes through unchanged. */
  lemma {:induction false} CollapseSepsFree(s: string)
    requires NoSep(s)
    ensures CollapseSeps(s) == s
    decreases |s|
  {
    if s != [] {
      CollapseSepsFree(s[1..]);
    }
  }

  /** Text without separators in front passes through `CollapseSeps` as it is. */
  lemma {:induction false} CollapsePlainPrefix(a: string, s: string)
    requires NoSep(a)
    ensures CollapseSeps(a + s) == a + CollapseSeps(s)
    decreases |a|
  {
    if a != [] {
      var x := a + s;
      assert x[0] == a[0] && !IsSep(x[0]);
      assert x[1..] == a[1..] + s;
      assert NoSep(a[1..]);
      CollapsePlainPrefix(a[1..], s);
      assert CollapseSeps(x) == [a[0]] + CollapseSeps(a[1..] + s);
      assert a == [a[0]] + a[1..];
    } else {
      assert a + s == s;
    }
  }

  lemma {:induction false} SkipRun(run: string, b: string)
    requires forall i :: 0 <= i < |run| ==> IsSep(run[i])
    requires b != [] ==> !IsSep(b[0])
    ensures SkipSeps(run + b) == b
    decreases |run|
  {
    if run != [] {
      assert (run + b)[1..] == run[1..] + b;
      SkipRun(run[1..], b);
    }
  }

  /** A string headed by a separator collapses to a space and the rest after the run. */
  lemma CollapseSepHead(x: string)
    requires x != [] && IsSep(x[0])
    ensures CollapseSeps(x) == " " + CollapseSeps(SkipSeps(x[1..]))
  {
  }

  /** A whole run of separators, however long and however mixed, becomes one space. */
  lemma CollapseRunOnce(run: string, b: string)
    requires |run| > 0 && forall i :: 0 <= i < |run| ==> IsSep(run[i])
    requires b != [] ==> !IsSep(b[0])
    ensures CollapseSeps(run + b) == " " + CollapseSeps(b)
  {
    var x := run + b;
    assert x[0] == run[0];
    assert x[1..] == run[1..] + b;
    SkipRun(run[1..], b);
    CollapseSepHead(x);
  }

  /** `s.split(sep)`: the pieces between separators, at least one, none holding `sep`. */
  function SplitOn(s: string, sep: char): (r: seq<string>)
    ensures |r| >= 1
    ensures forall k :: 0 <= k < |r| ==> sep !in r[k]
    decreases |s|
  {
    if s == [] then [""]
    else
      var rest := SplitOn(s[1..], sep);
      if s[0] == sep then [""] + rest
      else [[s[0]] + rest[0]] + rest[1..]
  }

  /** `ws.join(sep)`. */
  function JoinOn(ws: seq<string>, sep: char): string
    decreases |ws|
  {
    if ws == [] then ""
    else if |ws| == 1 then ws[0]
    else ws[0] + [sep] + JoinOn(ws[1..], sep)
  }

  /** A piece without the separator in front of a string joins the split's first piece. */
  lemma {:induction false} SplitPrefix(w: string, t: string, sep: char)
    requires sep !in w
    ensures SplitOn(w + t, sep) == [w + SplitOn(t, sep)[0]] + SplitOn(t, sep)[1..]
    decreases |w|
  {
    var st := SplitOn(t, sep);
    if w != [] {
      assert (w + t)[1..] == w[1..] + t;
      SplitPrefix(w[1..], t, sep);
      var rest := [w[1..] + st[0]] + st[1..];
      assert rest[1..] == st[1..];
      assert [w[0]] + (w[1..] + st[0]) == w + st[0];
    } else {
      assert w + t == t && w + st[0] == st[0];
      assert st == [st[0]] + st[1..];
    }
  }

  /** Splitting undoes joining, for a non-empty list of pieces without the separator. */
  lemma {:induction false} SplitJoin(ws: seq<string>, sep: char)
    requires |ws| >= 1
    requires forall k :: 0 <= k < |ws| ==> sep !in ws[k]
    ensures SplitOn(JoinOn(ws, sep), sep) == ws
    decreases |ws|
  {
    if |ws| == 1 {
      SplitPrefix(ws[0], "", sep);
      assert ws[0] + "" == ws[0];
    } else {
      var tail := JoinOn(ws[1..], sep);
      SplitJoin(ws[1..], sep);
      assert ws[0] + [sep] + tail == ws[0] + ([sep] + tail);
      SplitPrefix(ws[0], [sep] + tail, sep);
      assert ([sep] + tail)[1..] == tail;
      assert SplitOn([sep] + tail, sep) == [""] + ws[1..];
      assert ws[0] + "" == ws[0];
      assert ws == [ws[0]] + ws[1..];
    }
  }

  /** Joining undoes splitting. */
  lemma {:induction false} JoinSplit(s: string, sep: char)
    ensures JoinOn(SplitOn(s, sep), sep) == s
    decreases |s|
  {
    if s != [] {
      var rest := SplitOn(s[1..], sep);
      JoinSplit(s[1..], sep);
      if s[0] == sep {
        assert s == [sep] + s[1..];
      } else {
        var r := [[s[0]] + rest[0]] + rest[1..];
        if |rest| == 1 {
          assert JoinOn(r, sep) == [s[0]] + rest[0];
        } else {
          assert r[1..] == rest[1..];
          assert JoinOn(r, sep) == [s[0]] + rest[0] + [sep] + JoinOn(rest[1..], sep);
        }
        assert s == [s[0]] + s[1..];
      }
    }
  }

  /** `word.charAt(0).toUpperCase() + word.slice(1)`. */
  function Capitalize(w: string): (r: string)
    ensures |r| == |w|
    ensures w != [] ==> r[0] == UpperChar(w[0]) && r[1..] == w[1..]
  {
    if w == [] then [] else [UpperChar(w[0])] + w[1..]
  }

  function NonEmpty(w: string): bool {
    w != ""
  }

  /** The words of `str`: separators to spaces, lower-cased, split on spaces, empty words dropped. */
  function Words(str: string): (ws: seq<string>)
    ensures forall k :: 0 <= k < |ws| ==> ws[k] != "" && ' ' !in ws[k] && NoSep(ws[k])
    ensures forall k :: 0 <= k < |ws| ==> Lower(ws[k]) == ws[k]
  {
    var pieces := SplitOn(Lower(CollapseSeps(str)), ' ');
    WordsOfLower(Lower(CollapseSeps(str)));
    var ws := Filter(pieces, NonEmpty);
    assert forall k :: 0 <= k < |ws| ==> ws[k] in ws;
    assert forall k :: 0 <= k < |ws| ==> ws[k] in pieces && NonEmpty(ws[k]);
    ws
  }

  lemma WordsOfLower(s: string)
    requires Lower(s) == s && NoSep(s)
    ensures forall k :: 0 <= k < |SplitOn(s, ' ')| ==> Lower(SplitOn(s, ' ')[k]) == SplitOn(s, ' ')[k]
    ensures forall k :: 0 <= k < |SplitOn(s, ' ')| ==> NoSep(SplitOn(s, ' ')[k])
  {
    PiecesOf(s, ' ');
  }

  /** Every character of a piece is a character of the split string. */
  lemma {:induction false} PiecesOf(s: string, sep: char)
    ensures forall k, j :: 0 <= k < |SplitOn(s, sep)| && 0 <= j < |SplitOn(s, sep)[k]| ==>
              SplitOn(s, sep)[k][j] in s
    decreases |s|
  {
    if s != [] {
      PiecesOf(s[1..], sep);
    }
  }

  function CapitalizeAll(ws: seq<string>): (r: seq<string>)
    ensures |r| == |ws| && forall k :: 0 <= k < |ws| ==> r[k] == Capitalize(ws[k])
  {
    seq(|ws|, k requires 0 <= k < |ws| => Capitalize(ws[k]))
  }

  /** `toTitleCase(str)`. */
  function ToTitleCase(str: string): string {
    JoinOn(CapitalizeAll(Words(str)), ' ')
  }

  /** No space at either end and never two in a row. */
  predicate CleanSpacing(r: string) {
    && (|r| > 0 ==> r[0] != ' ' && r[|r| - 1] != ' ')
    && forall i :: 0 <= i < |r| - 1 ==> !(r[i] == ' ' && r[i + 1] == ' ')
  }

  /** A word as `toTitleCase` leaves it: non-empty, no space or separator, upper-cased head, lower-case rest. */
  predicate TitleWord(w: string) {
    && w != "" && ' ' !in w && NoSep(w)
    && UpperChar(w[0]) == w[0]
    && Lower(w[1..]) == w[1..]
  }

  /** Joining non-empty words without spaces gives clean spacing. */
  lemma {:induction false} JoinClean(ws: seq<string>)
    requires forall k :: 0 <= k < |ws| ==> ws[k] != "" && ' ' !in ws[k]
    ensures CleanSpacing(JoinOn(ws, ' '))
    ensures |ws| > 0 ==> JoinOn(ws, ' ') != "" && JoinOn(ws, ' ')[0] == ws[0][0]
    decreases |ws|
  {
    if |ws| > 1 {
      JoinClean(ws[1..]);
      var w, t := ws[0], JoinOn(ws[1..], ' ');
      var r := w + " " + t;
      assert r[|w| + 1] == t[0];
      forall i | 0 <= i < |r| - 1
        ensures !(r[i] == ' ' && r[i + 1] == ' ')
      {
        if i < |w| - 1 {
          assert r[i] == w[i];
        } else if i == |w| - 1 {
          assert r[i] == w[i];
        } else if i == |w| {
          assert r[i + 1] == t[0];
        } else {
          assert r[i] == t[i - |w| - 1] && r[i + 1] == t[i + 1 - |w| - 1];
        }
      }
    } else if |ws| == 1 {
      assert forall i :: 0 <= i < |ws[0]| ==> ws[0][i] != ' ';
    }
  }

  /** `toTitleCase` never starts or ends with a space and never doubles one. */
  lemma TitleCaseSpacing(str: string)
    ensures CleanSpacing(ToTitleCase(str))
  {
    var ws := CapitalizeAll(Words(str));
    forall k | 0 <= k < |ws|
      ensures ws[k] != "" && ' ' !in ws[k]
    {
      var w := Words(str)[k];
      assert ws[k] == [UpperChar(w[0])] + w[1..];
      assert w[0] in w;
    }
    JoinClean(ws);
  }

  /** Every word of the result is a title word. */
  lemma TitleWords(str: string)
    ensures forall k :: 0 <= k < |CapitalizeAll(Words(str))| ==> TitleWord(CapitalizeAll(Words(str))[k])
  {
    var ws := Words(str);
    forall k | 0 <= k < |ws|
      ensures TitleWord(Capitalize(ws[k]))
    {
      var w := ws[k];
      var c := Capitalize(w);
      assert c == [UpperChar(w[0])] + w[1..];
      assert w[0] in w;
      assert Lower(w[1..]) == Lower(w)[1..];
    }
  }

  lemma {:induction false} LowerJoin(ws: seq<string>)
    ensures Lower(JoinOn(ws, ' ')) == JoinOn(LowerAll(ws), ' ')
    decreases |ws|
  {
    if |ws| > 1 {
      LowerJoin(ws[1..]);
      LowerDistributes(ws[0] + " ", JoinOn(ws[1..], ' '));
      LowerDistributes(ws[0], " ");
      assert LowerAll(ws)[1..] == LowerAll(ws[1..]);
    }
  }

  lemma {:induction false} JoinNoSep(ws: seq<string>)
    requires forall k :: 0 <= k < |ws| ==> NoSep(ws[k])
    ensures NoSep(JoinOn(ws, ' '))
    decreases |ws|
  {
    if |ws| > 1 {
      JoinNoSep(ws[1..]);
    }
  }

  /** Title-casing a title-cased string changes nothing. */
  lemma TitleCaseIdempotent(str: string)
    ensures ToTitleCase(ToTitleCase(str)) == ToTitleCase(str)
  {
    var ws := CapitalizeAll(Words(str));
    TitleWords(str);
    var lw := LowerAll(ws);
    forall k | 0 <= k < |ws|
      ensures lw[k] != "" && ' ' !in lw[k] && Capitalize(lw[k]) == ws[k]
    {
      LowerTitleWord(ws[k]);
    }
    WordsOfJoined(ws, lw);
    assert CapitalizeAll(lw) == ws;
  }

  function LowerAll(ws: seq<string>): (r: seq<string>)
    ensures |r| == |ws| && forall k :: 0 <= k < |ws| ==> r[k] == Lower(ws[k])
  {
    seq(|ws|, k requires 0 <= k < |ws| => Lower(ws[k]))
  }

  /** Lower-casing a title word and capitalizing it again gives the word back. */
  lemma LowerTitleWord(w: string)
    requires TitleWord(w)
    ensures Lower(w) != "" && ' ' !in Lower(w) && Capitalize(Lower(w)) == w
  {
    assert Lower(w) == [LowerChar(w[0])] + Lower(w[1..]);
    assert w == [w[0]] + w[1..];
    assert ' ' !in Lower(w) by {
      forall i | 0 <= i < |w| ensures Lower(w)[i] != ' ' { assert w[i] in w; }
    }
  }

  /** The words of joined title words are those words lower-cased. */
  lemma WordsOfJoined(ws: seq<string>, lw: seq<string>)
    requires forall k :: 0 <= k < |ws| ==> TitleWord(ws[k])
    requires lw == LowerAll(ws)
    requires forall k :: 0 <= k < |lw| ==> lw[k] != "" && ' ' !in lw[k]
    ensures Words(JoinOn(ws, ' ')) == lw
  {
    var r := JoinOn(ws, ' ');
    JoinNoSep(ws);
    CollapseSepsFree(r);
    LowerJoin(ws);
    assert Lower(r) == JoinOn(lw, ' ');
    if |ws| == 0 {
      assert Words(r) == [];
    } else {
      SplitJoin(lw, ' ');
      assert SplitOn(Lower(CollapseSeps(r)), ' ') == lw;
    }
  }

  /** `path.split("/").filter(Boolean)`. */
  function Segments(path: string): (r: seq<string>)
    ensures forall k :: 0 <= k < |r| ==> r[k] != "" && '/' !in r[k]
  {
    var segs := Filter(SplitOn(path, '/'), NonEmpty);
    assert forall k :: 0 <= k < |segs| ==> segs[k] in segs;
    assert forall k :: 0 <= k < |segs| ==> segs[k] in SplitOn(path, '/') && NonEmpty(segs[k]);
    segs
  }

  /**
   * AdminTop's heading: the second segment title-cased; with fewer than two
   * segments `toTitleCase` receives undefined and throws (`None`).
   */
  function AdminHeading(path: string): (r: Option<string>)
    ensures r.None? <==> |Segments(path)| < 2
    ensures r.Some? ==> r.value == ToTitleCase(Segments(path)[1]) && CleanSpacing(r.value)
  {
    var segs := Segments(path);
    if |segs| < 2 then None
    else
      TitleCaseSpacing(segs[1]);
      Some(ToTitleCase(segs[1]))
  }

  /** CsrTop's heading: as AdminTop's, but a title starting "Csr" becomes "CSR Dashboard". */
  function CsrHeading(path: string): (r: Option<string>)
    ensures r.None? <==> |Segments(path)| < 2
    ensures r.Some? && StartsWith(ToTitleCase(Segments(path)[1]), "Csr") ==> r.value == "CSR Dashboard"
    ensures r.Some? && !StartsWith(ToTitleCase(Segments(path)[1]), "Csr") ==> r == AdminHeading(path)
  {
    var part := AdminHeading(path);
    if part.Some? && StartsWith(part.value, "Csr") then Some("CSR Dashboard") else part
  }

  /** A plain lower-case word: non-empty, with no space, slash or separator. */
  predicate PlainWord(w: string) {
    w != "" && ' ' !in w && '/' !in w && NoSep(w) && Lower(w) == w
  }

  /**
   * A hyphenated page name is headed by its two words capitalized, so
   * "/admin/add-csr" is headed "Add Csr".
   */
  lemma HyphenatedHeading(area: string, a: string, b: string)
    requires area != "" && '/' !in area
    requires PlainWord(a) && PlainWord(b)
    ensures AdminHeading("/" + area + "/" + a + "-" + b) == Some(Capitalize(a) + " " + Capitalize(b))
  {
    var seg := a + "-" + b;
    assert '/' !in seg by {
      forall i | 0 <= i < |seg| ensures seg[i] != '/' {
        if i < |a| { assert seg[i] == a[i]; } else if i > |a| { assert seg[i] == b[i - |a| - 1]; }
      }
    }
    var path := "/" + area + "/" + a + "-" + b;
    assert path == "/" + area + "/" + seg;
    TwoSegments(area, seg);
    assert AdminHeading(path) == Some(ToTitleCase(seg));
    HyphenatedWords(a, b);
    var caps := CapitalizeAll([a, b]);
    assert caps == [Capitalize(a), Capitalize(b)];
    assert caps[1..] == [Capitalize(b)];
    assert JoinOn(caps, ' ') == Capitalize(a) + " " + Capitalize(b);
  }

  /** "/area/seg" has the segments `area` and `seg`. */
  lemma TwoSegments(area: string, seg: string)
    requires area != "" && '/' !in area && seg != "" && '/' !in seg
    ensures Segments("/" + area + "/" + seg) == [area, seg]
  {
    var parts := ["", area, seg];
    assert parts[1..] == [area, seg] && parts[1..][1..] == [seg];
    assert JoinOn([area, seg], '/') == area + "/" + seg;
    assert JoinOn(parts, '/') == "" + "/" + (area + "/" + seg);
    assert JoinOn(parts, '/') == "/" + area + "/" + seg;
    SplitJoin(parts, '/');
    FilterCons("", [area, seg], NonEmpty);
    FilterCons(area, [seg], NonEmpty);
    FilterCons(seg, [], NonEmpty);
  }

  /** Two plain words joined by a hyphen are those two words. */
  lemma HyphenatedWords(a: string, b: string)
    requires PlainWord(a) && PlainWord(b)
    ensures Words(a + "-" + b) == [a, b]
  {
    HyphenToSpace(a, b);
    var spaced := a + " " + b;
    LowerDistributes(a + " ", b);
    LowerDistributes(a, " ");
    assert Lower(spaced) == spaced;
    SplitSpaced(a, b);
  }

  lemma HyphenToSpace(a: string, b: string)
    requires PlainWord(a) && PlainWord(b)
    ensures CollapseSeps(a + "-" + b) == a + " " + b
  {
    assert a + "-" + b == a + ("-" + b);
    CollapsePlainPrefix(a, "-" + b);
    CollapseRunOnce("-", b);
    CollapseSepsFree(b);
  }

  lemma SplitSpaced(a: string, b: string)
    requires PlainWord(a) && PlainWord(b)
    ensures Filter(SplitOn(a + " " + b, ' '), NonEmpty) == [a, b]
  {
    assert JoinOn([a, b], ' ') == a + " " + b;
    SplitJoin([a, b], ' ');
    FilterCons(a, [b], NonEmpty);
    FilterCons(b, [], NonEmpty);
  }

  /** Any second segment beginning "csr", in any case, gets the dashboard heading. */
  lemma CsrPrefixOverrides(path: string)
    requires |Segments(path)| >= 2
    requires |Segments(path)[1]| >= 3 && Lower(Segments(path)[1][..3]) == "csr"
    ensures CsrHeading(path) == Some("CSR Dashboard")
  {
    var seg := Segments(path)[1];
    TitleStartsCsr(seg);
  }

  /** A string beginning "csr" in any case title-cases to one beginning "Csr". */
  lemma TitleStartsCsr(seg: string)
    requires |seg| >= 3 && Lower(seg[..3]) == "csr"
    ensures StartsWith(ToTitleCase(seg), "Csr")
  {
    var head := seg[..3];
    assert LowerChar(head[0]) == 'c' && LowerChar(head[1]) == 's' && LowerChar(head[2]) == 'r';
    assert NoSep(head);
    CollapseKeepsPlainHead(seg);
    var collapsed := CollapseSeps(seg);
    var low := Lower(collapsed);
    assert low[..3] == Lower(collapsed[..3]);
    assert low[..3] == "csr";
    assert low == "csr" + low[3..];
    SplitPrefix("csr", low[3..], ' ');
    var pieces := SplitOn(low, ' ');
    var w := pieces[0];
    assert w == "csr" + SplitOn(low[3..], ' ')[0];
    assert pieces == [w] + pieces[1..];
    FilterCons(w, pieces[1..], NonEmpty);
    var ws := Words(seg);
    assert ws[0] == w;
    var caps := CapitalizeAll(ws);
    assert caps[0] == [UpperChar(w[0])] + w[1..];
    assert caps[0][..3] == "Csr";
    JoinHead(caps);
  }

  /** A first word of three or more characters heads the joined string. */
  lemma JoinHead(ws: seq<string>)
    requires |ws| >= 1 && |ws[0]| >= 3
    ensures |JoinOn(ws, ' ')| >= 3 && JoinOn(ws, ' ')[..3] == ws[0][..3]
  {
  }

  /** Three non-separator characters in front survive `CollapseSeps`. */
  lemma CollapseKeepsPlainHead(s: string)
    requires |s| >= 3 && NoSep(s[..3])
    ensures |CollapseSeps(s)| >= 3 && CollapseSeps(s)[..3] == s[..3]
  {
    assert s == s[..3] + s[3..];
    CollapsePlainPrefix(s[..3], s[3..]);
  }
}
