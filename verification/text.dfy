/** The JavaScript string operations the handlers and forms are built from:
    `trim`, `split(',')`, `join`, and the code-point order the database sorts
    strings by. */
module Text {

  /** White space and line terminators as JavaScript's `trim` sees them. */
  predicate IsSpace(c: char) {
    var n := c as int;
    n == 0x20 || 0x09 <= n <= 0x0D || n == 0xA0 || n == 0x1680 || 0x2000 <= n <= 0x200A
    || n == 0x2028 || n == 0x2029 || n == 0x202F || n == 0x205F || n == 0x3000 || n == 0xFEFF
  }

  /** `s.trim()` is falsy exactly when `s` is empty or white space only. */
  predicate Blank(s: string) {
    forall i :: 0 <= i < |s| ==> IsSpace(s[i])
  }

  /** Removes leading white space: `r` is the suffix of `s` after a blank prefix. */
  function TrimStart(s: string): (r: string)
    ensures |r| <= |s| && r == s[|s| - |r|..]
    ensures forall i :: 0 <= i < |s| - |r| ==> IsSpace(s[i])
    ensures r != [] ==> !IsSpace(r[0])
  {
    if s != [] && IsSpace(s[0]) then TrimStart(s[1..]) else s
  }

  /** Removes trailing white space: `r` is the prefix of `s` before a blank suffix. */
  function TrimEnd(s: string): (r: string)
    ensures |r| <= |s| && r == s[..|r|]
    ensures forall i :: |r| <= i < |s| ==> IsSpace(s[i])
    ensures r != [] ==> !IsSpace(r[|r| - 1])
  {
    if s != [] && IsSpace(s[|s| - 1]) then TrimEnd(s[..|s| - 1]) else s
  }

  /** `s.trim()`. The result is empty exactly when `s` is blank, and otherwise
      starts and ends with a non-space character. */
  function Trim(s: string): (r: string)
    ensures |r| <= |s|
    ensures Blank(s) <==> r == []
    ensures r != [] ==> !IsSpace(r[0]) && !IsSpace(r[|r| - 1])
  {
    TrimEnd(TrimStart(s))
  }

  /** A string with no white space at either end is its own trim. */
  lemma TrimmedIsFixed(s: string)
    requires s == [] || (!IsSpace(s[0]) && !IsSpace(s[|s| - 1]))
    ensures Trim(s) == s
  {
  }

  /** Trimming twice is trimming once. */
  lemma TrimIdempotent(s: string)
    ensures Trim(Trim(s)) == Trim(s)
  {
    TrimmedIsFixed(Trim(s));
  }

  /** A leading space does not survive `trim`. */
  lemma TrimSkipsLeadingSpace(c: char, x: string)
    requires IsSpace(c)
    ensures Trim([c] + x) == Trim(x)
  {
    assert ([c] + x)[1..] == x;
  }

  /** Leading white space is skipped whatever follows it. */
  lemma {:induction false} TrimStartSkipsBlank(p: string, x: string)
    requires Blank(p)
    ensures TrimStart(p + x) == TrimStart(x)
  {
    if p != [] {
      assert (p + x)[0] == p[0] && (p + x)[1..] == p[1..] + x;
      TrimStartSkipsBlank(p[1..], x);
    } else {
      assert p + x == x;
    }
  }

  /** Trailing white space is dropped whatever precedes it. */
  lemma {:induction false} TrimEndSkipsBlank(x: string, p: string)
    requires Blank(p)
    ensures TrimEnd(x + p) == TrimEnd(x)
  {
    if p != [] {
      var q := p[..|p| - 1];
      assert (x + p)[|x + p| - 1] == p[|p| - 1] && (x + p)[..|x + p| - 1] == x + q;
      TrimEndSkipsBlank(x, q);
    } else {
      assert x + p == x;
    }
  }

  /** A string that is not blank keeps what follows it through `TrimStart`. */
  lemma {:induction false} TrimStartAppend(s: string, t: string)
    requires !Blank(s)
    ensures TrimStart(s + t) == TrimStart(s) + t
  {
    assert s != [];
    assert (s + t)[0] == s[0] && (s + t)[1..] == s[1..] + t;
    if IsSpace(s[0]) {
      TrimStartAppend(s[1..], t);
    }
  }

  /** White space padding on both sides does not change the trim. */
  lemma TrimPadded(pad: string, s: string)
    requires Blank(pad)
    ensures Trim(pad + s + pad) == Trim(s)
  {
    assert pad + s + pad == pad + (s + pad);
    TrimStartSkipsBlank(pad, s + pad);
    if Blank(s) {
      assert Blank(s + pad);
      TrimStartSkipsBlank(s + pad, []);
      assert s + pad + [] == s + pad;
    } else {
      TrimStartAppend(s, pad);
      TrimEndSkipsBlank(TrimStart(s), pad);
    }
  }

  /** `s.split(sep)` for a one-character separator: the pieces between
      separators, in order, with an empty piece where two separators meet or
      at an end; there is always at least one piece. */
  function Split(s: string, sep: char): (r: seq<string>)
    ensures |r| >= 1
    ensures forall i :: 0 <= i < |r| ==> sep !in r[i]
  {
    if s == [] then [[]]
    else
      var rest := Split(s[1..], sep);
      if s[0] == sep then [[]] + rest
      else [[s[0]] + rest[0]] + rest[1..]
  }

  /** `xs.join(sep)`: the empty list joins to the empty string. */
  function Join(xs: seq<string>, sep: string): (r: string)
    ensures xs == [] ==> r == ""
    ensures |xs| == 1 ==> r == xs[0]
    ensures |xs| > 1 ==> |r| >= |xs[0]| + |sep| && r[..|xs[0]| + |sep|] == xs[0] + sep
  {
    if xs == [] then []
    else if |xs| == 1 then xs[0]
    else xs[0] + sep + Join(xs[1..], sep)
  }

  /** A non-empty join begins with its first entry. */
  lemma JoinStartsWithFirst(xs: seq<string>, sep: string)
    requires xs != []
    ensures |Join(xs, sep)| >= |xs[0]|
    ensures Join(xs, sep)[..|xs[0]|] == xs[0]
  {
    if |xs| > 1 {
      assert Join(xs, sep) == xs[0] + (sep + Join(xs[1..], sep));
    }
  }

  /** Splitting `x + t` where `x` has no separator extends the first piece of `t`. */
  lemma {:induction false} SplitPrefix(x: string, t: string, sep: char)
    requires sep !in x
    ensures Split(x + t, sep) == [x + Split(t, sep)[0]] + Split(t, sep)[1..]
  {
    if x != [] {
      assert (x + t)[0] == x[0];
      assert (x + t)[1..] == x[1..] + t;
      SplitPrefix(x[1..], t, sep);
      assert [x[0]] + (x[1..] + Split(t, sep)[0]) == x + Split(t, sep)[0];
    } else {
      var parts := Split(t, sep);
      assert x + t == t;
      assert x + parts[0] == parts[0];
      assert parts == [parts[0]] + parts[1..];
    }
  }

  /** Round trip one way: joining separator-free pieces and splitting gives the pieces back. */
  lemma {:induction false} SplitJoin(xs: seq<string>, sep: char)
    requires xs != []
    requires forall i :: 0 <= i < |xs| ==> sep !in xs[i]
    ensures Split(Join(xs, [sep]), sep) == xs
  {
    if |xs| == 1 {
      SplitPrefix(xs[0], [], sep);
      assert xs[0] + [] == xs[0];
    } else {
      var rest := Join(xs[1..], [sep]);
      SplitJoin(xs[1..], sep);
      assert Join(xs, [sep]) == xs[0] + ([sep] + rest);
      SplitPrefix(xs[0], [sep] + rest, sep);
      assert ([sep] + rest)[1..] == rest;
      assert Split([sep] + rest, sep) == [[]] + xs[1..];
      assert xs[0] + [] == xs[0];
    }
  }

  /** Round trip the other way: splitting and joining with the same separator gives the string back. */
  lemma {:induction false} JoinSplit(s: string, sep: char)
    ensures Join(Split(s, sep), [sep]) == s
  {
    if s != [] {
      var rest := Split(s[1..], sep);
      JoinSplit(s[1..], sep);
      if s[0] == sep {
        assert Split(s, sep) == [[]] + rest;
        assert s == [sep] + s[1..];
      } else {
        var parts := Split(s, sep);
        assert parts[0] == [s[0]] + rest[0];
        assert parts[1..] == rest[1..];
        if |rest| == 1 {
          assert s == [s[0]] + s[1..];
        } else {
          assert Join(rest, [sep]) == rest[0] + [sep] + Join(rest[1..], [sep]);
          assert s == [s[0]] + s[1..];
        }
      }
    }
  }

  /** `xs.map(x => x.trim())`. */
  function TrimAll(xs: seq<string>): (r: seq<string>)
    ensures |r| == |xs|
    ensures forall i :: 0 <= i < |xs| ==> r[i] == Trim(xs[i])
  {
    seq(|xs|, i requires 0 <= i < |xs| => Trim(xs[i]))
  }

  /** `xs.filter(x => x)`: keeps the non-empty entries, in order. */
  function DropEmpty(xs: seq<string>): (r: seq<string>)
    ensures |r| <= |xs|
    ensures forall i :: 0 <= i < |r| ==> r[i] != [] && r[i] in xs
    ensures forall x :: x in xs && x != [] ==> x in r
  {
    if xs == [] then []
    else
      assert forall x :: x in xs ==> x == xs[0] || x in xs[1..];
      if xs[0] == [] then DropEmpty(xs[1..])
      else [xs[0]] + DropEmpty(xs[1..])
  }

  /** The filter works entry by entry: it keeps the order of what it keeps. */
  lemma {:induction false} DropEmptyAppend(a: seq<string>, b: seq<string>)
    ensures DropEmpty(a + b) == DropEmpty(a) + DropEmpty(b)
  {
    if a == [] {
      assert a + b == b;
    } else {
      assert (a + b)[0] == a[0] && (a + b)[1..] == a[1..] + b;
      DropEmptyAppend(a[1..], b);
    }
  }

  /** One entry: dropped when empty, kept otherwise. */
  lemma DropEmptySingle(x: string)
    ensures x == [] ==> DropEmpty([x]) == []
    ensures x != [] ==> DropEmpty([x]) == [x]
  {
  }

  /** A tag as the tag splitting produces it: non-empty, trimmed, comma-free. */
  predicate IsTag(x: string) {
    x != [] && Trim(x) == x && ',' !in x
  }

  predicate AllTags(xs: seq<string>) {
    forall i :: 0 <= i < |xs| ==> IsTag(xs[i])
  }

  /** `s.split(',').map(t => t.trim()).filter(t => t)`: the tag splitting used
      by both the server and the post form. */
  function SplitTags(s: string): (r: seq<string>)
    ensures AllTags(r)
  {
    var pieces := Split(s, ',');
    CleanPieces(pieces);
    DropEmpty(TrimAll(pieces))
  }

  /** Trimming comma-free pieces and dropping the empty ones leaves clean tags. */
  lemma CleanPieces(pieces: seq<string>)
    requires forall i :: 0 <= i < |pieces| ==> ',' !in pieces[i]
    ensures AllTags(DropEmpty(TrimAll(pieces)))
  {
    var r := DropEmpty(TrimAll(pieces));
    forall i | 0 <= i < |r|
      ensures IsTag(r[i])
    {
      var k :| 0 <= k < |pieces| && TrimAll(pieces)[k] == r[i];
      TrimIdempotent(pieces[k]);
      TrimInfix(pieces[k]);
    }
  }

  /** Every character of `Trim(s)` occurs in `s`. */
  lemma TrimInfix(s: string)
    ensures forall c :: c in Trim(s) ==> c in s
  {
    var t := TrimStart(s);
    assert forall c :: c in t ==> c in s;
    assert forall c :: c in TrimEnd(t) ==> c in t;
  }

  /** Clean tags are their own trims. */
  lemma TrimAllTags(xs: seq<string>)
    requires AllTags(xs)
    ensures TrimAll(xs) == xs
  {
    forall i | 0 <= i < |xs| ensures TrimAll(xs)[i] == xs[i] {
      assert IsTag(xs[i]);
    }
  }

  /** Dropping empty entries from a list without any leaves it as it was. */
  lemma {:induction false} DropEmptyKeeps(xs: seq<string>)
    requires forall i :: 0 <= i < |xs| ==> xs[i] != []
    ensures DropEmpty(xs) == xs
  {
    if xs != [] {
      assert forall i :: 0 <= i < |xs[1..]| ==> xs[1..][i] == xs[i + 1];
      DropEmptyKeeps(xs[1..]);
    }
  }

  /** Entries that are already clean pass through the trim-and-drop step unchanged. */
  lemma CleanTagsUnchanged(xs: seq<string>)
    requires AllTags(xs)
    ensures DropEmpty(TrimAll(xs)) == xs
  {
    TrimAllTags(xs);
    forall i | 0 <= i < |xs| ensures xs[i] != [] { assert IsTag(xs[i]); }
    DropEmptyKeeps(xs);
  }

  /** Tags joined with ',' split back into the same tags, in order and with repetitions. */
  lemma {:induction false} JoinedTagsSplitBack(xs: seq<string>)
    requires AllTags(xs)
    ensures SplitTags(Join(xs, ",")) == xs
  {
    var joined := Join(xs, [',']);
    assert "," == [','];
    assert SplitTags(joined) == DropEmpty(TrimAll(Split(joined, ',')));
    if xs == [] {
      assert Split(joined, ',') == [[]];
      assert Trim([]) == [];
      assert TrimAll([[]]) == [[]];
    } else {
      assert forall i :: 0 <= i < |xs| ==> ',' !in xs[i] by {
        forall i | 0 <= i < |xs| ensures ',' !in xs[i] { assert IsTag(xs[i]); }
      }
      SplitJoin(xs, ',');
      CleanTagsUnchanged(xs);
    }
  }

  /** `xs` with a space put in front of every entry. */
  function SpaceBefore(xs: seq<string>): (r: seq<string>)
    ensures |r| == |xs|
    ensures forall i :: 0 <= i < |xs| ==> r[i] == [' '] + xs[i]
  {
    seq(|xs|, i requires 0 <= i < |xs| => [' '] + xs[i])
  }

  /** A character put before a join lands in the first piece. */
  lemma JoinConsFirst(c: char, zs: seq<string>, sep: string)
    requires zs != []
    ensures [c] + Join(zs, sep) == Join([[c] + zs[0]] + zs[1..], sep)
  {
    var ws := [[c] + zs[0]] + zs[1..];
    assert ws[0] == [c] + zs[0] && ws[1..] == zs[1..];
    if |zs| > 1 {
      var rest := sep + Join(zs[1..], sep);
      assert Join(zs, sep) == zs[0] + rest;
      assert Join(ws, sep) == ([c] + zs[0]) + rest;
    }
  }

  /** Joining with ", " is joining with "," after a space is put before every entry but the first. */
  lemma {:induction false} SpacedJoin(xs: seq<string>)
    requires xs != []
    ensures Join(xs, ", ") == Join([xs[0]] + SpaceBefore(xs[1..]), ",")
  {
    var ws := [xs[0]] + SpaceBefore(xs[1..]);
    if |xs| > 1 {
      var ys := xs[1..];
      SpacedJoin(ys);
      var zs := [ys[0]] + SpaceBefore(ys[1..]);
      JoinConsFirst(' ', zs, ",");
      assert [[' '] + zs[0]] + zs[1..] == SpaceBefore(ys) by {
        assert SpaceBefore(ys) == [[' '] + ys[0]] + SpaceBefore(ys[1..]);
      }
      assert ws[0] == xs[0] && ws[1..] == SpaceBefore(ys);
      assert Join(xs, ", ") == xs[0] + ", " + Join(ys, ", ");
      assert ", " + Join(ys, ", ") == "," + ([' '] + Join(ys, ", "));
    } else {
      assert ws == [xs[0]];
    }
  }

  /** A space put before a trimmed string is trimmed away again. */
  lemma TrimSpacedEntry(ws: seq<string>, i: int, x: string)
    requires 0 <= i < |ws| && ws[i] == [' '] + x
    requires Trim(x) == x
    ensures TrimAll(ws)[i] == x
  {
    TrimSkipsLeadingSpace(' ', x);
  }

  /** Trimming undoes the spaces put before clean entries. */
  lemma {:induction false} TrimSpaced(xs: seq<string>)
    requires xs != []
    requires AllTags(xs)
    ensures TrimAll([xs[0]] + SpaceBefore(xs[1..])) == xs
  {
    var ws := [xs[0]] + SpaceBefore(xs[1..]);
    var trimmed := TrimAll(ws);
    forall i | 0 <= i < |ws| ensures trimmed[i] == xs[i] {
      assert IsTag(xs[i]);
      if i > 0 {
        TrimSpacedEntry(ws, i, xs[i]);
      }
    }
  }

  /** Putting spaces before comma-free entries keeps them comma-free. */
  lemma SpacedCommaFree(xs: seq<string>)
    requires xs != []
    requires AllTags(xs)
    ensures var ws := [xs[0]] + SpaceBefore(xs[1..]);
      forall i :: 0 <= i < |ws| ==> ',' !in ws[i]
  {
    var ws := [xs[0]] + SpaceBefore(xs[1..]);
    forall i | 0 <= i < |ws| ensures ',' !in ws[i] {
      assert IsTag(xs[i]);
      if i > 0 { assert ws[i] == [' '] + xs[i]; }
    }
  }

  /** Tags joined with ", " (as the post form shows them) split back into the same tags. */
  lemma SpacedTagsSplitBack(xs: seq<string>)
    requires AllTags(xs)
    ensures SplitTags(Join(xs, ", ")) == xs
  {
    if xs == [] {
      JoinedTagsSplitBack(xs);
    } else {
      var ws := [xs[0]] + SpaceBefore(xs[1..]);
      var joined := Join(xs, ", ");
      assert Split(joined, ',') == ws by {
        SpacedJoin(xs);
        SpacedCommaFree(xs);
        assert "," == [','];
        SplitJoin(ws, ',');
      }
      assert TrimAll(ws) == xs by {
        TrimSpaced(xs);
      }
      assert DropEmpty(xs) == xs by {
        CleanTagsUnchanged(xs);
        TrimAllTags(xs);
      }
    }
  }

  /** Code-point order on strings, as the database compares names. */
  predicate StrLe(a: string, b: string) {
    a == [] || (b != [] && (a[0] < b[0] || (a[0] == b[0] && StrLe(a[1..], b[1..]))))
  }

  lemma {:induction false} StrLeTotal(a: string, b: string)
    ensures StrLe(a, b) || StrLe(b, a)
  {
    if a != [] && b != [] && a[0] == b[0] {
      StrLeTotal(a[1..], b[1..]);
    }
  }

  lemma {:induction false} StrLeTransitive(a: string, b: string, c: string)
    requires StrLe(a, b) && StrLe(b, c)
    ensures StrLe(a, c)
  {
    if a != [] && b != [] && c != [] && a[0] == b[0] == c[0] {
      StrLeTransitive(a[1..], b[1..], c[1..]);
    }
  }
}
