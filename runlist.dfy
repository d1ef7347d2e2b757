/**
  The `--run-list` option of `knife instance create`: its argument is split on
  every run of whitespace and commas (`o.split(/[\s,]+/)`), and the list is
  `["role[base]"]` when the option is not given.
*/
module RunList {
  import opened Basics

  /** A character of the class `[\s,]`: space, tab, line feed, vertical tab, form feed, carriage return or comma. */
  predicate IsSeparator(c: char)
  {
    c == ' ' || c == ',' || 9 <= c as int <= 13
  }

  predicate NoSeparator(s: string)
  {
    forall i :: 0 <= i < |s| ==> !IsSeparator(s[i])
  }

  /** The longest prefix without a separator. */
  function Field(s: string): (r: string)
    ensures |r| <= |s| && r == s[..|r|] && NoSeparator(r)
    ensures |r| < |s| ==> IsSeparator(s[|r|])
  {
    if s == [] || IsSeparator(s[0]) then [] else [s[0]] + Field(s[1..])
  }

  /** The text after a run of separators at the front. */
  function SkipSeparators(s: string): (r: string)
    ensures |r| <= |s| && r == s[|s| - |r|..]
    ensures r != [] ==> !IsSeparator(r[0])
    ensures s != [] && IsSeparator(s[0]) ==> |r| < |s|
  {
    if s != [] && IsSeparator(s[0]) then SkipSeparators(s[1..]) else s
  }

  /** The pieces between maximal runs of separators; the first and the last may be empty. */
  function Pieces(s: string): (r: seq<string>)
    ensures |r| > 0
    decreases |s|
  {
    var f := Field(s);
    if |f| == |s| then [f] else [f] + Pieces(SkipSeparators(s[|f|..]))
  }

  /** Ruby's `split` drops the empty strings at the end of the result. */
  function DropTrailingEmpty(xs: seq<string>): (r: seq<string>)
    ensures |r| <= |xs| && r == xs[..|r|]
    ensures r == [] || r[|r| - 1] != []
    ensures forall i :: |r| <= i < |xs| ==> xs[i] == []
  {
    if xs != [] && xs[|xs| - 1] == [] then DropTrailingEmpty(xs[..|xs| - 1]) else xs
  }

  /** `o.split(/[\s,]+/)` */
  function Split(s: string): seq<string>
  {
    DropTrailingEmpty(Pieces(s))
  }

  /** The value `config[:run_list]` gets. */
  function RunListOption(arg: Option<string>): (r: Value)
    ensures arg.None? ==> r == List(["role[base]"])
    ensures arg.Some? ==> r == List(Split(arg.value))
  {
    match arg
    case None => List(["role[base]"])
    case Some(o) => List(Split(o))
  }

  /** Every piece is free of separators, and only the first may be empty. */
  lemma {:induction false} PiecesShape(s: string)
    ensures forall i :: 0 <= i < |Pieces(s)| ==> NoSeparator(Pieces(s)[i])
    ensures forall i :: 0 < i < |Pieces(s)| - 1 ==> Pieces(s)[i] != []
    ensures Pieces(s)[0] == [] ==> s == [] || IsSeparator(s[0])
    decreases |s|
  {
    var f := Field(s);
    if |f| < |s| {
      var rest := SkipSeparators(s[|f|..]);
      PiecesShape(rest);
      var ps := Pieces(rest);
      assert Pieces(s) == [f] + ps;
      assert |ps| > 1 ==> ps[0] != [] by {
        if |ps| > 1 {
          assert rest != [];
        }
      }
    }
  }

  /** The split yields separator-free strings; every one but possibly the first is
      non-empty, and the first is empty only when the text starts with a separator. */
  lemma SplitShape(s: string)
    ensures forall i :: 0 <= i < |Split(s)| ==> NoSeparator(Split(s)[i])
    ensures forall i :: 0 < i < |Split(s)| ==> Split(s)[i] != []
    ensures |Split(s)| > 0 && Split(s)[0] == [] ==> |s| > 0 && IsSeparator(s[0])
  {
    PiecesShape(s);
    var ps := Pieces(s);
    var r := Split(s);
    assert r == ps[..|r|];
    forall i | 0 <= i < |r| ensures NoSeparator(r[i]) {
      assert r[i] == ps[i];
    }
    forall i | 0 < i < |r| ensures r[i] != [] {
      if i < |r| - 1 {
        assert r[i] == ps[i] && i < |ps| - 1;
      }
    }
    if |r| > 0 {
      assert r[0] == ps[0];
    }
  }

  /** The characters of a text that are not separators, in order. */
  function Kept(s: string): (r: string)
  {
    if s == [] then [] else (if IsSeparator(s[0]) then [] else [s[0]]) + Kept(s[1..])
  }

  function Concat(xs: seq<string>): string
  {
    if xs == [] then [] else xs[0] + Concat(xs[1..])
  }

  lemma {:induction false} KeptAppend(a: string, b: string)
    ensures Kept(a + b) == Kept(a) + Kept(b)
  {
    if a != [] {
      assert (a + b)[1..] == a[1..] + b;
      KeptAppend(a[1..], b);
    } else {
      assert a + b == b;
    }
  }

  lemma {:induction false} KeptNoSeparator(s: string)
    requires NoSeparator(s)
    ensures Kept(s) == s
  {
    if s != [] {
      KeptNoSeparator(s[1..]);
      assert [s[0]] + s[1..] == s;
    }
  }

  lemma {:induction false} KeptSkipped(s: string)
    ensures Kept(SkipSeparators(s)) == Kept(s)
  {
    if s != [] && IsSeparator(s[0]) {
      KeptSkipped(s[1..]);
    }
  }

  lemma {:induction false} ConcatPieces(s: string)
    ensures Concat(Pieces(s)) == Kept(s)
    decreases |s|
  {
    var f := Field(s);
    KeptNoSeparator(f);
    if |f| == |s| {
      assert f == s;
      assert Concat([f]) == f + Concat([]);
    } else {
      var tail := s[|f|..];
      assert s == f + tail;
      KeptAppend(f, tail);
      KeptSkipped(tail);
      ConcatPieces(SkipSeparators(tail));
      assert ([f] + Pieces(SkipSeparators(tail)))[1..] == Pieces(SkipSeparators(tail));
    }
  }

  lemma {:induction false} ConcatDropTrailing(xs: seq<string>)
    ensures Concat(DropTrailingEmpty(xs)) == Concat(xs)
  {
    if xs != [] && xs[|xs| - 1] == [] {
      ConcatDropTrailing(xs[..|xs| - 1]);
      ConcatSnoc(xs[..|xs| - 1], []);
      assert xs[..|xs| - 1] + [[]] == xs;
    }
  }

  lemma {:induction false} ConcatSnoc(xs: seq<string>, x: string)
    ensures Concat(xs + [x]) == Concat(xs) + x
  {
    if xs != [] {
      assert (xs + [x])[1..] == xs[1..] + [x];
      ConcatSnoc(xs[1..], x);
    } else {
      assert [x][1..] == [];
    }
  }

  /** Nothing but separators is lost: the pieces of the split, put together,
      are the text's other characters in order. */
  lemma SplitKeepsContent(s: string)
    ensures Concat(Split(s)) == Kept(s)
  {
    ConcatPieces(s);
    ConcatDropTrailing(Pieces(s));
  }

  /** A text made only of separators. */
  predicate AllSeparators(sep: string)
  {
    forall i :: 0 <= i < |sep| ==> IsSeparator(sep[i])
  }

  lemma {:induction false} SkipAll(sep: string, rest: string)
    requires AllSeparators(sep)
    requires rest == [] || !IsSeparator(rest[0])
    ensures SkipSeparators(sep + rest) == rest
  {
    if sep != [] {
      assert (sep + rest)[1..] == sep[1..] + rest;
      SkipAll(sep[1..], rest);
    }
  }

  lemma {:induction false} FieldOf(f: string, rest: string)
    requires NoSeparator(f)
    requires rest == [] || IsSeparator(rest[0])
    ensures Field(f + rest) == f
  {
    if f != [] {
      assert (f + rest)[1..] == f[1..] + rest;
      FieldOf(f[1..], rest);
      assert [f[0]] + f[1..] == f;
    }
  }

  /** A piece, a separator run, and a text that starts with a name or is empty. */
  lemma PiecesStep(f: string, sep: string, tail: string)
    requires NoSeparator(f) && sep != [] && AllSeparators(sep)
    requires tail == [] || !IsSeparator(tail[0])
    ensures Pieces(f + (sep + tail)) == [f] + Pieces(tail)
  {
    var s := f + (sep + tail);
    FieldOf(f, sep + tail);
    assert s[|f|..] == sep + tail;
    SkipAll(sep, tail);
  }

  /** Splitting names joined with a separator gives the names back. */
  lemma {:induction false} PiecesJoin(names: seq<string>, sep: string)
    requires names != [] && sep != [] && AllSeparators(sep)
    requires forall i :: 0 <= i < |names| ==> names[i] != [] && NoSeparator(names[i])
    ensures Pieces(Join(names, sep)) == names
  {
    if |names| == 1 {
      assert Join(names, sep) == names[0] + [];
      FieldOf(names[0], []);
    } else {
      var tail := Join(names[1..], sep);
      assert Join(names, sep) == names[0] + (sep + tail);
      JoinStart(names[1..], sep);
      PiecesStep(names[0], sep, tail);
      PiecesJoin(names[1..], sep);
      assert [names[0]] + names[1..] == names;
    }
  }

  lemma {:induction false} JoinStart(names: seq<string>, sep: string)
    requires names != [] && names[0] != []
    ensures Join(names, sep) != [] && Join(names, sep)[0] == names[0][0]
  {
  }

  /** The run list round trip: `Join(names, sep).split(/[\s,]+/) == names` for
      non-empty names without separators and any separator run, such as `","` or `", "`. */
  lemma SplitJoin(names: seq<string>, sep: string)
    requires names != [] && sep != [] && AllSeparators(sep)
    requires forall i :: 0 <= i < |names| ==> names[i] != [] && NoSeparator(names[i])
    ensures Split(Join(names, sep)) == names
  {
    PiecesJoin(names, sep);
  }
}
