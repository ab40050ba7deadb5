/** Category names (lutris/database/categories.py): the reserved-name rule
    and the normalisation applied to names users type. */
module CategoryNames {
  import opened PyValues

  /** Python's `str.isspace` for one character: the characters `str.strip()`
      removes. */
  predicate IsSpace(c: char) {
    c == ' ' || '\t' <= c <= '\r' || '\U{1C}' <= c <= '\U{1F}' || c == '\U{85}' || c == '\U{A0}' ||
    c == '\U{1680}' || '\U{2000}' <= c <= '\U{200A}' || c == '\U{2028}' || c == '\U{2029}' ||
    c == '\U{202F}' || c == '\U{205F}' || c == '\U{3000}'
  }

  /** s.lstrip(): the suffix of s after its leading whitespace. */
  function LStrip(s: string): (r: string)
    ensures |r| <= |s| && r == s[|s| - |r|..]
    ensures r == "" || !IsSpace(r[0])
    ensures forall i | 0 <= i < |s| - |r| :: IsSpace(s[i])
  {
    if s != "" && IsSpace(s[0]) then LStrip(s[1..]) else s
  }

  /** s.rstrip(): the prefix of s before its trailing whitespace. */
  function RStrip(s: string): (r: string)
    ensures |r| <= |s| && r == s[..|r|]
    ensures r == "" || !IsSpace(r[|r| - 1])
    ensures forall i | |r| <= i < |s| :: IsSpace(s[i])
  {
    if s != "" && IsSpace(s[|s| - 1]) then RStrip(s[..|s| - 1]) else s
  }

  /** Neither end of s is whitespace. */
  predicate Trimmed(s: string) {
    s == "" || (!IsSpace(s[0]) && !IsSpace(s[|s| - 1]))
  }

  /** r is s from index i on, with only whitespace before i and after r. */
  predicate TrimsTo(s: string, i: int, r: string) {
    && 0 <= i <= |s| - |r|
    && r == s[i..i + |r|]
    && (forall k | 0 <= k < i :: IsSpace(s[k]))
    && (forall k | i + |r| <= k < |s| :: IsSpace(s[k]))
  }

  /** s.strip(): the slice of s left once its leading and trailing
      whitespace is cut off. */
  function Strip(s: string): (r: string)
    ensures Trimmed(r)
    ensures Trimmed(s) ==> r == s
    ensures exists i :: TrimsTo(s, i, r)
  {
    var l := LStrip(s);
    var r := RStrip(l);
    assert r != "" ==> r[0] == l[0];
    SliceOfSuffix(s, l, r);
    r
  }

  /** A prefix r of a suffix l of s, followed in l by whitespace only and
      preceded in s by whitespace only, is a slice of s with whitespace
      around it. */
  lemma SliceOfSuffix(s: string, l: string, r: string)
    requires |l| <= |s| && l == s[|s| - |l|..]
    requires forall k | 0 <= k < |s| - |l| :: IsSpace(s[k])
    requires |r| <= |l| && r == l[..|r|]
    requires forall k | |r| <= k < |l| :: IsSpace(l[k])
    ensures TrimsTo(s, |s| - |l|, r)
  {
    var i := |s| - |l|;
    assert r == s[i..i + |r|];
    forall k | i + |r| <= k < |s| ensures IsSpace(s[k]) {
      assert s[k] == l[k - i];
    }
  }

  /** No two spaces in a row. */
  predicate NoDoubleSpace(s: string) {
    forall i | 0 <= i < |s| - 1 :: !(s[i] == ' ' && s[i + 1] == ' ')
  }

  /** s with every space removed. */
  function WithoutSpaces(s: string): string {
    if s == "" then "" else (if s[0] == ' ' then "" else [s[0]]) + WithoutSpaces(s[1..])
  }

  /** re.sub(" +", " ", s): each run of spaces (U+0020 only) becomes one
      space; the first and last characters are kept. */
  function CollapseSpaces(s: string): string
  {
    if |s| <= 1 then s
    else if s[0] == ' ' && s[1] == ' ' then CollapseSpaces(s[1..])
    else [s[0]] + CollapseSpaces(s[1..])
  }

  /** Collapsing never lengthens a string and keeps its first and last
      characters. */
  lemma {:induction false} CollapseKeepsEnds(s: string)
    ensures |CollapseSpaces(s)| <= |s|
    ensures s != "" ==> CollapseSpaces(s) != "" && CollapseSpaces(s)[0] == s[0] &&
                        CollapseSpaces(s)[|CollapseSpaces(s)| - 1] == s[|s| - 1]
    decreases |s|
  {
    if |s| > 1 {
      CollapseKeepsEnds(s[1..]);
      assert s[1..][|s| - 2] == s[|s| - 1];
      if s[0] == ' ' && s[1] == ' ' {
        assert s[1..][0] == s[0];
      }
    }
  }

  /** Every character of s is a space. */
  predicate AllSpaces(s: string) {
    forall i | 0 <= i < |s| :: s[i] == ' '
  }

  /** Each run of spaces between two other characters becomes exactly one
      space, and what lies on either side is collapsed on its own. */
  lemma CollapseRunToOneSpace(x: string, run: string, y: string)
    requires run != "" && AllSpaces(run)
    requires x == "" || x[|x| - 1] != ' '
    requires y == "" || y[0] != ' '
    ensures CollapseSpaces(x + run + y) == CollapseSpaces(x) + " " + CollapseSpaces(y)
  {
    var t := run + y;
    var cx, cy := CollapseSpaces(x), CollapseSpaces(y);
    assert x + run + y == x + t;
    CollapseAppend(x, t);
    CollapseLeadingRun(run, y);
    assert cx + (" " + cy) == cx + " " + cy;
  }

  /** A leading run of spaces collapses to one space. */
  lemma {:induction false} CollapseLeadingRun(run: string, y: string)
    requires run != "" && AllSpaces(run)
    requires y == "" || y[0] != ' '
    ensures CollapseSpaces(run + y) == " " + CollapseSpaces(y)
    decreases |run|
  {
    var s := run + y;
    assert s[0] == run[0] == ' ';
    if |run| == 1 {
      assert s[1..] == y;
      if y != "" {
        assert s[1] == y[0];
      }
    } else {
      assert s[1] == run[1] == ' ';
      assert s[1..] == run[1..] + y;
      CollapseLeadingRun(run[1..], y);
    }
  }

  /** A string that does not end in a space collapses independently of what
      follows it. */
  lemma {:induction false} CollapseAppend(x: string, t: string)
    requires x == "" || x[|x| - 1] != ' '
    ensures CollapseSpaces(x + t) == CollapseSpaces(x) + CollapseSpaces(t)
    decreases |x|
  {
    var s := x + t;
    if x == "" {
      assert s == t;
    } else if |x| == 1 {
      if t == "" {
        assert s == x;
      } else {
        assert s[0] == x[0] && s[0] != ' ';
        assert s[1..] == t;
      }
    } else {
      var x' := x[1..];
      assert x'[|x'| - 1] == x[|x| - 1];
      assert s[0] == x[0] && s[1] == x[1];
      assert s[1..] == x' + t;
      CollapseAppend(x', t);
    }
  }

  /** After collapsing, no two spaces are adjacent. */
  lemma {:induction false} CollapseNoDoubleSpace(s: string)
    ensures NoDoubleSpace(CollapseSpaces(s))
    decreases |s|
  {
    if |s| > 1 {
      CollapseNoDoubleSpace(s[1..]);
      if !(s[0] == ' ' && s[1] == ' ') {
        var tail := CollapseSpaces(s[1..]);
        var r := [s[0]] + tail;
        forall i | 0 <= i < |r| - 1 ensures !(r[i] == ' ' && r[i + 1] == ' ') {
          if i > 0 {
            assert r[i] == tail[i - 1] && r[i + 1] == tail[i];
          }
        }
      }
    }
  }

  /** Collapsing only removes spaces, and keeps at least one of every run. */
  lemma {:induction false} CollapseOnlyDropsSpaces(s: string)
    ensures WithoutSpaces(CollapseSpaces(s)) == WithoutSpaces(s)
    ensures (' ' in CollapseSpaces(s)) == (' ' in s)
    decreases |s|
  {
    if |s| > 1 {
      CollapseOnlyDropsSpaces(s[1..]);
      assert s == [s[0]] + s[1..];
      assert ' ' in s <==> s[0] == ' ' || ' ' in s[1..];
      if !(s[0] == ' ' && s[1] == ' ') {
        var tail := CollapseSpaces(s[1..]);
        var r := [s[0]] + tail;
        assert r[1..] == tail;
        assert ' ' in r <==> s[0] == ' ' || ' ' in tail;
      }
    }
  }

  /** A string without a double space is left as it is. */
  lemma {:induction false} CollapseFixpoint(s: string)
    requires NoDoubleSpace(s)
    ensures CollapseSpaces(s) == s
    decreases |s|
  {
    if |s| > 1 {
      assert !(s[0] == ' ' && s[1] == ' ');
      assert NoDoubleSpace(s[1..]) by {
        forall i | 0 <= i < |s[1..]| - 1 ensures !(s[1..][i] == ' ' && s[1..][i + 1] == ' ') {
          assert s[1..][i] == s[i + 1] && s[1..][i + 1] == s[i + 2];
        }
      }
      CollapseFixpoint(s[1..]);
      assert s == [s[0]] + s[1..];
    }
  }

  /** is_reserved_category: a missing or empty name, a name starting with
      ".", and the names "all" and "favorite" are kept for internal use. */
  predicate IsReservedCategory(name: Option<string>) {
    name.None? || name.value == "" || name.value[0] == '.' || name.value in ["all", "favorite"]
  }

  /** Collapsing spaces does not change whether a name is reserved. */
  lemma CollapseKeepsReserved(n: string)
    ensures IsReservedCategory(Some(CollapseSpaces(n))) == IsReservedCategory(Some(n))
  {
    var c := CollapseSpaces(n);
    // the names reserved by value hold no space
    assert forall w | w in ["all", "favorite"] :: NoDoubleSpace(w) && ' ' !in w by {
      assert "all" == ['a', 'l', 'l'];
      assert "favorite" == ['f', 'a', 'v', 'o', 'r', 'i', 't', 'e'];
    }
    if c in ["all", "favorite"] {
      CollapseOnlyDropsSpaces(n);
      assert NoDoubleSpace(n);
      CollapseFixpoint(n);
    }
    if n in ["all", "favorite"] {
      CollapseFixpoint(n);
    }
  }

  /** strip_category_name: None becomes "", surrounding whitespace goes, and
      a name that is not reserved gets its runs of spaces collapsed. */
  function StripCategoryName(name: Option<string>): (r: string)
    ensures Trimmed(r)
    ensures IsReservedCategory(Some(r)) == IsReservedCategory(Some(Strip(name.GetOr(""))))
    ensures !IsReservedCategory(Some(r)) ==>
              NoDoubleSpace(r) && WithoutSpaces(r) == WithoutSpaces(Strip(name.GetOr("")))
    ensures IsReservedCategory(Some(r)) ==> r == Strip(name.GetOr(""))
    ensures !IsReservedCategory(Some(r)) ==> r == CollapseSpaces(Strip(name.GetOr("")))
  {
    var n := Strip(name.GetOr(""));
    if !IsReservedCategory(Some(n)) then
      CollapseKeepsReserved(n);
      CollapseNoDoubleSpace(n);
      CollapseOnlyDropsSpaces(n);
      CollapseKeepsEnds(n);
      CollapseSpaces(n)
    else n
  }

  /** Normalising a normalised name changes nothing. */
  lemma StripCategoryNameIdempotent(name: Option<string>)
    ensures StripCategoryName(Some(StripCategoryName(name))) == StripCategoryName(name)
  {
    var r := StripCategoryName(name);
    assert Strip(r) == r;
    if !IsReservedCategory(Some(r)) {
      CollapseFixpoint(r);
    }
  }

  /** A name that only differs by its surrounding whitespace normalises to
      the same name. */
  lemma StripCategoryNameIgnoresPadding(pre: string, name: string, post: string)
    requires forall i | 0 <= i < |pre| :: IsSpace(pre[i])
    requires forall i | 0 <= i < |post| :: IsSpace(post[i])
    ensures StripCategoryName(Some(pre + name + post)) == StripCategoryName(Some(name))
  {
    StripPadding(pre, name, post);
  }

  /** Surrounding whitespace does not survive stripping. */
  lemma {:induction false} StripPadding(pre: string, s: string, post: string)
    requires forall i | 0 <= i < |pre| :: IsSpace(pre[i])
    requires forall i | 0 <= i < |post| :: IsSpace(post[i])
    ensures Strip(pre + s + post) == Strip(s)
  {
    assert pre + s + post == pre + (s + post);
    LStripPadding(s + post, pre);
    var front := LStrip(s + post);
    assert Strip(pre + s + post) == RStrip(front);
    LStripSuffix(s, post);
    if front == LStrip(s) + post {
      RStripPadding(LStrip(s), post);
    }
  }

  lemma {:induction false} LStripPadding(s: string, pad: string)
    requires forall i | 0 <= i < |pad| :: IsSpace(pad[i])
    ensures LStrip(pad + s) == LStrip(s)
    decreases |pad|
  {
    if pad != "" {
      assert (pad + s)[0] == pad[0];
      assert (pad + s)[1..] == pad[1..] + s;
      LStripPadding(s, pad[1..]);
      assert LStrip(pad + s) == LStrip(pad[1..] + s);
    } else {
      assert pad + s == s;
    }
  }

  lemma {:induction false} RStripPadding(s: string, pad: string)
    requires forall i | 0 <= i < |pad| :: IsSpace(pad[i])
    ensures RStrip(s + pad) == RStrip(s)
    decreases |pad|
  {
    if pad != "" {
      assert (s + pad)[|s + pad| - 1] == pad[|pad| - 1];
      assert (s + pad)[..|s + pad| - 1] == s + pad[..|pad| - 1];
      RStripPadding(s, pad[..|pad| - 1]);
    } else {
      assert s + pad == s;
    }
  }

  /** Stripping the front of s + pad strips the front of s, unless s is all
      whitespace. */
  lemma {:induction false} LStripSuffix(s: string, pad: string)
    requires forall i | 0 <= i < |pad| :: IsSpace(pad[i])
    ensures LStrip(s + pad) == LStrip(s) + pad || (LStrip(s) == "" && LStrip(s + pad) == "")
    decreases |s|
  {
    if s == "" {
      LStripPadding("", pad);
      assert pad + "" == pad && "" + pad == pad;
    } else if IsSpace(s[0]) {
      assert (s + pad)[1..] == s[1..] + pad;
      LStripSuffix(s[1..], pad);
    }
  }
}
