/**
 * The product-name canonicaliser `clean` of tools/audit_models.py.
 *
 * `clean` applies two regular-expression rewrites in turn:
 *   1. delete every character that is neither a word character (`\w`) nor
 *      whitespace (`\s`);
 *   2. replace every maximal run of whitespace by a single `_`.
 * Nothing is trimmed, so leading and trailing whitespace become `_`.
 *
 * The two character classes are parameters: Python decides them from the
 * Unicode database, which is not modelled. All that the properties below
 * use is that the classes are disjoint and that `_` is a word character.
 */
module CleanName {

  /** The two character classes the regular expressions test. */
  datatype CharClasses = CharClasses(word: char -> bool, space: char -> bool)
  {
    /** `\w` and `\s` never overlap, and `_` is a word character. */
    ghost predicate Valid() {
      && word('_')
      && forall c :: !(word(c) && space(c))
    }
  }

  /** An ASCII instance of the two classes: letters, digits and `_` are
      word characters; space, tab, newline, carriage return, vertical tab,
      form feed and the four separators U+001C..U+001F (which
      `str.isspace` counts as whitespace) are whitespace. It meets
      `Valid`. */
  const Ascii: CharClasses := CharClasses(AsciiWord, AsciiSpace)

  predicate AsciiWord(c: char) {
    'a' <= c <= 'z' || 'A' <= c <= 'Z' || '0' <= c <= '9' || c == '_'
  }

  predicate AsciiSpace(c: char) {
    c == ' ' || c == '\t' || c == '\n' || c == '\r' || c == '\U{B}' || c == '\U{C}'
    || '\U{1C}' <= c <= '\U{1F}'
  }

  lemma AsciiValid()
    ensures Ascii.Valid()
  {
  }

  /** A character that survives the first rewrite. */
  predicate Kept(cl: CharClasses, c: char) {
    cl.word(c) || cl.space(c)
  }

  ghost predicate AllKept(cl: CharClasses, s: string) {
    forall i :: 0 <= i < |s| ==> Kept(cl, s[i])
  }

  ghost predicate NoneKept(cl: CharClasses, s: string) {
    forall i :: 0 <= i < |s| ==> !Kept(cl, s[i])
  }

  ghost predicate AllSpace(cl: CharClasses, s: string) {
    forall i :: 0 <= i < |s| ==> cl.space(s[i])
  }

  ghost predicate NoSpace(cl: CharClasses, s: string) {
    forall i :: 0 <= i < |s| ==> !cl.space(s[i])
  }

  ghost predicate AllWord(cl: CharClasses, s: string) {
    forall i :: 0 <= i < |s| ==> cl.word(s[i])
  }

  /** First rewrite, `re.sub(r'[^\w\s]', '', name)`: the kept characters of
      `s`, in their original order. */
  function Strip(cl: CharClasses, s: string): (r: string)
    ensures |r| <= |s|
    ensures AllKept(cl, r)
  {
    if s == [] then []
    else if Kept(cl, s[0]) then [s[0]] + Strip(cl, s[1..])
    else Strip(cl, s[1..])
  }

  /** Removes the leading run of whitespace of `s` (the part `\s+` matches). */
  function DropSpaces(cl: CharClasses, s: string): (r: string)
    ensures |r| <= |s|
    ensures r == [] || !cl.space(r[0])
  {
    if s != [] && cl.space(s[0]) then DropSpaces(cl, s[1..]) else s
  }

  /** Second rewrite, `re.sub(r'\s+', '_', name)`: scanning left to right,
      each maximal run of whitespace becomes one `_`; every other character
      is copied. */
  function Collapse(cl: CharClasses, s: string): (r: string)
    ensures |r| <= |s|
    decreases |s|
  {
    if s == [] then []
    else if cl.space(s[0]) then "_" + Collapse(cl, DropSpaces(cl, s[1..]))
    else [s[0]] + Collapse(cl, s[1..])
  }

  /** `clean(name)` of tools/audit_models.py: the asset key of a product. */
  function Clean(cl: CharClasses, name: string): (key: string)
    ensures |key| <= |name|
    ensures name == "" ==> key == ""
  {
    Collapse(cl, Strip(cl, name))
  }

  // ---------------------------------------------------------------------
  // The output alphabet

  /** What the first rewrite keeps comes from its input. */
  lemma {:induction false} StripElements(cl: CharClasses, s: string)
    ensures forall i :: 0 <= i < |Strip(cl, s)| ==> Strip(cl, s)[i] in s
  {
    if s != [] {
      StripElements(cl, s[1..]);
    }
  }

  /** The first rewrite leaves a string of word characters and whitespace
      unchanged. */
  lemma {:induction false} StripKeepsAll(cl: CharClasses, s: string)
    requires AllKept(cl, s)
    ensures Strip(cl, s) == s
  {
    if s != [] {
      assert AllKept(cl, s[1..]) by {
        forall i | 0 <= i < |s| - 1 ensures Kept(cl, s[1..][i]) {
          assert s[1..][i] == s[i + 1];
        }
      }
      StripKeepsAll(cl, s[1..]);
    }
  }

  /** The first rewrite deletes a string of punctuation entirely. */
  lemma {:induction false} StripDropsAll(cl: CharClasses, s: string)
    requires NoneKept(cl, s)
    ensures Strip(cl, s) == []
  {
    if s != [] {
      assert NoneKept(cl, s[1..]) by {
        forall i | 0 <= i < |s| - 1 ensures !Kept(cl, s[1..][i]) {
          assert s[1..][i] == s[i + 1];
        }
      }
      StripDropsAll(cl, s[1..]);
    }
  }

  /** The leading-whitespace removal leaves a suffix of its input. */
  lemma {:induction false} DropSpacesSuffix(cl: CharClasses, s: string)
    ensures DropSpaces(cl, s) == s[|s| - |DropSpaces(cl, s)|..]
  {
    if s != [] && cl.space(s[0]) {
      DropSpacesSuffix(cl, s[1..]);
    }
  }

  /** Collapsing a string of word characters and whitespace leaves only word
      characters. */
  lemma {:induction false} CollapseAlphabet(cl: CharClasses, s: string)
    requires cl.Valid() && AllKept(cl, s)
    ensures AllWord(cl, Collapse(cl, s)) && NoSpace(cl, Collapse(cl, s))
    decreases |s|
  {
    if s == [] {
    } else if cl.space(s[0]) {
      var d := DropSpaces(cl, s[1..]);
      DropSpacesSuffix(cl, s[1..]);
      assert AllKept(cl, d) by {
        forall i | 0 <= i < |d| ensures Kept(cl, d[i]) {
          assert d[i] == s[|s| - |d| + i];
        }
      }
      CollapseAlphabet(cl, d);
    } else {
      assert AllKept(cl, s[1..]) by {
        forall i | 0 <= i < |s| - 1 ensures Kept(cl, s[1..][i]) {
          assert s[1..][i] == s[i + 1];
        }
      }
      CollapseAlphabet(cl, s[1..]);
      assert cl.word(s[0]);
    }
  }

  /** Every character of a key is a word character and none is whitespace:
      the first rewrite leaves only word characters and whitespace, and the
      second replaces all the whitespace by `_`, itself a word character. */
  lemma CleanIsWordOnly(cl: CharClasses, name: string)
    requires cl.Valid()
    ensures AllWord(cl, Clean(cl, name))
    ensures NoSpace(cl, Clean(cl, name))
  {
    CollapseAlphabet(cl, Strip(cl, name));
  }

  /** `clean` is idempotent. */
  lemma CleanIdempotent(cl: CharClasses, name: string)
    requires cl.Valid()
    ensures Clean(cl, Clean(cl, name)) == Clean(cl, name)
  {
    var key := Clean(cl, name);
    CleanIsWordOnly(cl, name);
    assert AllKept(cl, key) by {
      forall i | 0 <= i < |key| ensures Kept(cl, key[i]) {
        assert cl.word(key[i]);
      }
    }
    StripKeepsAll(cl, key);
    CollapseCopiesPrefix(cl, key, []);
    assert key + [] == key;
  }

  // ---------------------------------------------------------------------
  // The first rewrite commutes with concatenation

  lemma {:induction false} StripAppend(cl: CharClasses, a: string, b: string)
    ensures Strip(cl, a + b) == Strip(cl, a) + Strip(cl, b)
    decreases |a|
  {
    if a == [] {
      assert a + b == b;
    } else {
      assert (a + b)[0] == a[0];
      assert (a + b)[1..] == a[1..] + b;
      StripAppend(cl, a[1..], b);
    }
  }

  /** Punctuation is deleted before whitespace is collapsed, so characters
      that are neither word characters nor whitespace may be inserted
      anywhere without changing the key; in particular whitespace separated
      only by punctuation (`"a - b"`) ends up as a single `_`. */
  lemma CleanIgnoresPunctuation(cl: CharClasses, a: string, p: string, b: string)
    requires NoneKept(cl, p)
    ensures Clean(cl, a + p + b) == Clean(cl, a + b)
  {
    StripAppend(cl, a + p, b);
    StripAppend(cl, a, p);
    StripAppend(cl, a, b);
    StripDropsAll(cl, p);
    assert Strip(cl, a + p + b) == Strip(cl, a) + Strip(cl, b);
  }

  // ---------------------------------------------------------------------
  // The second rewrite does not depend on the length of a run

  lemma {:induction false} DropSpacesAppend(cl: CharClasses, x: string, z: string)
    ensures DropSpaces(cl, x + z) == if AllSpace(cl, x) then DropSpaces(cl, z) else DropSpaces(cl, x) + z
    decreases |x|
  {
    if x == [] {
      assert x + z == z;
    } else if !cl.space(x[0]) {
      assert (x + z)[0] == x[0];
      assert !AllSpace(cl, x);
    } else {
      assert (x + z)[0] == x[0];
      assert (x + z)[1..] == x[1..] + z;
      DropSpacesAppend(cl, x[1..], z);
      if AllSpace(cl, x[1..]) {
        assert AllSpace(cl, x) by {
          forall i | 0 <= i < |x| ensures cl.space(x[i]) {
            if i > 0 { assert x[i] == x[1..][i - 1]; }
          }
        }
      } else {
        var i :| 0 <= i < |x[1..]| && !cl.space(x[1..][i]);
        assert x[1..][i] == x[i + 1];
        assert !AllSpace(cl, x);
      }
    }
  }

  lemma AllSpaceTail(cl: CharClasses, r: string)
    requires r != [] && AllSpace(cl, r)
    ensures AllSpace(cl, r[1..])
  {
    forall i | 0 <= i < |r[1..]| ensures cl.space(r[1..][i]) {
      assert r[1..][i] == r[i + 1];
    }
  }

  /** Collapsing a name that starts with a nonempty run of whitespace `r`
      followed by `y` does not depend on `r`. */
  lemma CollapseLeadingRun(cl: CharClasses, r: string, y: string)
    requires r != [] && AllSpace(cl, r)
    ensures Collapse(cl, r + y) == "_" + Collapse(cl, DropSpaces(cl, y))
  {
    var s := r + y;
    assert s[0] == r[0];
    assert s[1..] == r[1..] + y;
    AllSpaceTail(cl, r);
    DropSpacesAppend(cl, r[1..], y);
  }

  lemma CollapseHead(cl: CharClasses, c: char, t: string)
    ensures !cl.space(c) ==> Collapse(cl, [c] + t) == [c] + Collapse(cl, t)
    ensures cl.space(c) ==> Collapse(cl, [c] + t) == "_" + Collapse(cl, DropSpaces(cl, t))
  {
    assert ([c] + t)[0] == c;
    assert ([c] + t)[1..] == t;
  }

  lemma {:induction false} CollapseRunIndependent(cl: CharClasses, x: string, r1: string, r2: string, y: string)
    requires r1 != [] && AllSpace(cl, r1)
    requires r2 != [] && AllSpace(cl, r2)
    ensures Collapse(cl, x + r1 + y) == Collapse(cl, x + r2 + y)
    decreases |x|, 1
  {
    if x == [] {
      assert x + r1 + y == r1 + y;
      assert x + r2 + y == r2 + y;
      CollapseLeadingRun(cl, r1, y);
      CollapseLeadingRun(cl, r2, y);
    } else {
      var x' := x[1..];
      assert x + r1 + y == [x[0]] + (x' + r1 + y);
      assert x + r2 + y == [x[0]] + (x' + r2 + y);
      CollapseHead(cl, x[0], x' + r1 + y);
      CollapseHead(cl, x[0], x' + r2 + y);
      if !cl.space(x[0]) {
        CollapseRunIndependent(cl, x', r1, r2, y);
      } else {
        CollapseSpaceRest(cl, x', r1, r2, y);
      }
    }
  }

  lemma DropSpacesBeforeRun(cl: CharClasses, x: string, r: string, y: string)
    requires r != [] && AllSpace(cl, r)
    ensures AllSpace(cl, x) ==> DropSpaces(cl, x + r + y) == DropSpaces(cl, y)
    ensures !AllSpace(cl, x) ==> DropSpaces(cl, x + r + y) == DropSpaces(cl, x) + r + y
  {
    assert x + r + y == x + (r + y);
    DropSpacesAppend(cl, x, r + y);
    DropSpacesAppend(cl, r, y);
  }

  /** The rest of a collapse after a leading whitespace character of `x`. */
  lemma {:induction false} CollapseSpaceRest(cl: CharClasses, x': string, r1: string, r2: string, y: string)
    requires r1 != [] && AllSpace(cl, r1)
    requires r2 != [] && AllSpace(cl, r2)
    ensures Collapse(cl, DropSpaces(cl, x' + r1 + y)) == Collapse(cl, DropSpaces(cl, x' + r2 + y))
    decreases |x'| + 1, 0
  {
    DropSpacesBeforeRun(cl, x', r1, y);
    DropSpacesBeforeRun(cl, x', r2, y);
    if !AllSpace(cl, x') {
      CollapseRunIndependent(cl, DropSpaces(cl, x'), r1, r2, y);
    }
  }

  /** Two names that differ only in the length or make-up of one run of
      whitespace get the same key. */
  lemma CleanRunIndependent(cl: CharClasses, a: string, r1: string, r2: string, b: string)
    requires r1 != [] && AllSpace(cl, r1)
    requires r2 != [] && AllSpace(cl, r2)
    ensures Clean(cl, a + r1 + b) == Clean(cl, a + r2 + b)
  {
    StripAppend(cl, a + r1, b);
    StripAppend(cl, a, r1);
    StripAppend(cl, a + r2, b);
    StripAppend(cl, a, r2);
    assert AllKept(cl, r1) by {
      forall i | 0 <= i < |r1| ensures Kept(cl, r1[i]) { assert cl.space(r1[i]); }
    }
    assert AllKept(cl, r2) by {
      forall i | 0 <= i < |r2| ensures Kept(cl, r2[i]) { assert cl.space(r2[i]); }
    }
    StripKeepsAll(cl, r1);
    StripKeepsAll(cl, r2);
    CollapseRunIndependent(cl, Strip(cl, a), r1, r2, Strip(cl, b));
  }

  // ---------------------------------------------------------------------
  // Nothing is trimmed

  lemma {:induction false} CollapseEndsWithUnderscore(cl: CharClasses, s: string)
    requires s != [] && cl.space(s[|s| - 1])
    ensures Collapse(cl, s) != [] && Collapse(cl, s)[|Collapse(cl, s)| - 1] == '_'
    decreases |s|
  {
    if cl.space(s[0]) {
      var d := DropSpaces(cl, s[1..]);
      DropSpacesSuffix(cl, s[1..]);
      if d != [] {
        assert d[|d| - 1] == s[|s| - 1];
        CollapseEndsWithUnderscore(cl, d);
      }
    } else {
      CollapseEndsWithUnderscore(cl, s[1..]);
    }
  }

  /** A name that starts (ends) with whitespace gives a key that starts
      (ends) with `_`. */
  lemma CleanKeepsEdges(cl: CharClasses, name: string)
    requires name != []
    ensures cl.space(name[0]) ==> Clean(cl, name) != [] && Clean(cl, name)[0] == '_'
    ensures cl.space(name[|name| - 1]) ==>
              Clean(cl, name) != [] && Clean(cl, name)[|Clean(cl, name)| - 1] == '_'
  {
    assert name == [name[0]] + name[1..];
    StripAppend(cl, [name[0]], name[1..]);
    var last := |name| - 1;
    assert name == name[..last] + [name[last]];
    StripAppend(cl, name[..last], [name[last]]);
    if cl.space(name[last]) {
      var t := Strip(cl, name);
      assert t[|t| - 1] == name[last];
      CollapseEndsWithUnderscore(cl, t);
    }
  }

  // ---------------------------------------------------------------------
  // A second description of the run collapsing

  /** Drops every whitespace character that directly follows another. */
  function Squeeze(cl: CharClasses, s: string): string
  {
    if |s| <= 1 then s
    else if cl.space(s[0]) && cl.space(s[1]) then Squeeze(cl, s[1..])
    else [s[0]] + Squeeze(cl, s[1..])
  }

  /** Replaces each whitespace character by `_`, one for one. */
  function Underscore(cl: CharClasses, s: string): (r: string)
    ensures |r| == |s|
    ensures forall i :: 0 <= i < |s| ==> r[i] == if cl.space(s[i]) then '_' else s[i]
  {
    if s == [] then [] else [if cl.space(s[0]) then '_' else s[0]] + Underscore(cl, s[1..])
  }

  lemma {:induction false} SqueezeLeadingRun(cl: CharClasses, s: string)
    requires s != [] && cl.space(s[0])
    ensures Underscore(cl, Squeeze(cl, s)) == "_" + Underscore(cl, Squeeze(cl, DropSpaces(cl, s)))
    decreases |s|
  {
    if |s| == 1 {
      assert DropSpaces(cl, s[1..]) == [];
    } else if cl.space(s[1]) {
      SqueezeLeadingRun(cl, s[1..]);
    } else {
      var rest := Squeeze(cl, s[1..]);
      assert Underscore(cl, [s[0]] + rest) == "_" + Underscore(cl, rest) by {
        assert ([s[0]] + rest)[1..] == rest;
      }
    }
  }

  /** Collapsing runs of whitespace is the same as first dropping every
      whitespace character that follows another and then turning each
      remaining one into `_`. */
  lemma {:induction false} CollapseIsSqueezeThenUnderscore(cl: CharClasses, s: string)
    ensures Collapse(cl, s) == Underscore(cl, Squeeze(cl, s))
    decreases |s|
  {
    if s == [] {
    } else if cl.space(s[0]) {
      SqueezeLeadingRun(cl, s);
      CollapseIsSqueezeThenUnderscore(cl, DropSpaces(cl, s));
    } else {
      CollapseIsSqueezeThenUnderscore(cl, s[1..]);
      var rest := Squeeze(cl, s[1..]);
      if |s| > 1 {
        assert ([s[0]] + rest)[1..] == rest;
      }
    }
  }

  // ---------------------------------------------------------------------
  // Words separated by whitespace and punctuation

  lemma NoSpaceTail(cl: CharClasses, x: string)
    requires x != [] && NoSpace(cl, x)
    ensures !cl.space(x[0]) && NoSpace(cl, x[1..])
  {
    forall i | 0 <= i < |x| - 1 ensures !cl.space(x[1..][i]) {
      assert x[1..][i] == x[i + 1];
    }
  }

  /** Collapsing copies a prefix that holds no whitespace. */
  lemma {:induction false} CollapseCopiesPrefix(cl: CharClasses, x: string, t: string)
    requires NoSpace(cl, x)
    ensures Collapse(cl, x + t) == x + Collapse(cl, t)
    decreases |x|
  {
    if x == [] {
      assert x + t == t;
    } else {
      var c, x' := x[0], x[1..];
      NoSpaceTail(cl, x);
      assert x + t == [c] + (x' + t);
      CollapseHead(cl, c, x' + t);
      CollapseCopiesPrefix(cl, x', t);
      assert x == [c] + x';
    }
  }

  lemma StripKeepsOne(cl: CharClasses, m: string, i: nat)
    requires i < |m| && Kept(cl, m[i])
    ensures Strip(cl, m) != []
  {
    assert m == m[..i] + ([m[i]] + m[i + 1..]);
    StripAppend(cl, m[..i], [m[i]] + m[i + 1..]);
    StripAppend(cl, [m[i]], m[i + 1..]);
    assert [m[i]][1..] == [];
  }

  lemma WordsAreKeptNonSpace(cl: CharClasses, x: string)
    requires cl.Valid() && AllWord(cl, x)
    ensures AllKept(cl, x) && NoSpace(cl, x)
  {
    forall j | 0 <= j < |x| ensures Kept(cl, x[j]) && !cl.space(x[j]) {
      assert cl.word(x[j]);
    }
  }

  /** The first rewrite turns a mixture of punctuation and whitespace that
      holds some whitespace into a nonempty run of whitespace. */
  lemma StripSeparator(cl: CharClasses, m: string, i: nat)
    requires forall j :: 0 <= j < |m| ==> !cl.word(m[j])
    requires i < |m| && cl.space(m[i])
    ensures Strip(cl, m) != [] && AllSpace(cl, Strip(cl, m))
  {
    var run := Strip(cl, m);
    StripKeepsOne(cl, m, i);
    StripElements(cl, m);
    forall j | 0 <= j < |run| ensures cl.space(run[j]) {
      assert Kept(cl, run[j]);
      assert run[j] in m;
    }
  }

  /** Two words separated by any mixture of whitespace and punctuation that
      holds at least one whitespace character are joined by exactly one
      `_`: `"a - b"` gives `"a_b"`. With `CleanIgnoresPunctuation` for the
      closing parenthesis, `"Cheese (Ayib)"` gives `"Cheese_Ayib"`. */
  lemma CleanJoinsWords(cl: CharClasses, x: string, m: string, y: string, i: nat)
    requires cl.Valid()
    requires AllWord(cl, x) && AllWord(cl, y)
    requires forall j :: 0 <= j < |m| ==> !cl.word(m[j])
    requires i < |m| && cl.space(m[i])
    ensures Clean(cl, x + m + y) == x + "_" + y
  {
    WordsAreKeptNonSpace(cl, x);
    WordsAreKeptNonSpace(cl, y);
    StripAround(cl, x, m, y);
    StripSeparator(cl, m, i);
    CollapseAroundRun(cl, x, Strip(cl, m), y);
  }

  lemma StripAround(cl: CharClasses, x: string, m: string, y: string)
    requires AllKept(cl, x) && AllKept(cl, y)
    ensures Strip(cl, x + m + y) == x + (Strip(cl, m) + y)
  {
    StripAppend(cl, x + m, y);
    StripAppend(cl, x, m);
    StripKeepsAll(cl, x);
    StripKeepsAll(cl, y);
  }

  lemma CollapseAroundRun(cl: CharClasses, x: string, run: string, y: string)
    requires NoSpace(cl, x) && NoSpace(cl, y)
    requires run != [] && AllSpace(cl, run)
    ensures Collapse(cl, x + (run + y)) == x + "_" + y
  {
    CollapseCopiesPrefix(cl, x, run + y);
    CollapseLeadingRun(cl, run, y);
    assert y == [] || !cl.space(y[0]);
    assert DropSpaces(cl, y) == y;
    CollapseCopiesPrefix(cl, y, []);
    assert y + [] == y;
  }
}
