/**
  `to_snake_case` from the financial-ratios importer: two left-to-right,
  non-overlapping regular-expression substitutions followed by `lower()`,
  written as explicit scans over ASCII text.

    1. `(.)([A-Z][a-z]+)` becomes `\1_\2`: a character other than a newline,
       followed by an uppercase letter and the longest run of lowercase letters.
    2. `([a-z0-9])([A-Z])` becomes `\1_\2`.
    3. ASCII letters are lowercased.
*/
module SnakeCase {
  import opened CharClass

  predicate AllLower(s: string) {
    forall i :: 0 <= i < |s| ==> IsLower(s[i])
  }

  /** No ASCII uppercase letter anywhere in `s`. */
  predicate NoUpper(s: string) {
    forall i :: 0 <= i < |s| ==> !IsUpper(s[i])
  }

  /** The length of the run of lowercase letters `[a-z]+` matches greedily at the start of `t`. */
  function LowerRun(t: string): (n: nat)
    ensures n <= |t|
    ensures forall i :: 0 <= i < n ==> IsLower(t[i])
    ensures n < |t| ==> !IsLower(t[n])
  {
    if t != [] && IsLower(t[0]) then 1 + LowerRun(t[1..]) else 0
  }

  /** `(.)([A-Z][a-z]` matches at the start of `s`. */
  predicate WordAt(s: string) {
    |s| >= 3 && s[0] != '\n' && IsUpper(s[1]) && IsLower(s[2])
  }

  /** Where the match of `(.)([A-Z][a-z]+)` at the start of `s` ends. */
  function WordEnd(s: string): (e: nat)
    requires WordAt(s)
    ensures 3 <= e <= |s|
    ensures forall i :: 2 <= i < e ==> IsLower(s[i])
    ensures e < |s| ==> !IsLower(s[e])
  {
    var n := LowerRun(s[2..]);
    assert forall i :: 2 <= i < 2 + n ==> s[i] == s[2..][i - 2];
    2 + n
  }

  /** The first substitution, `re.sub(r'(.)([A-Z][a-z]+)', r'\1_\2', s)`. */
  function SplitWords(s: string): string
    decreases |s|
  {
    if WordAt(s) then
      var e := WordEnd(s);
      [s[0], '_'] + s[1..e] + SplitWords(s[e..])
    else if s == [] then []
    else [s[0]] + SplitWords(s[1..])
  }

  /** The second substitution, `re.sub(r'([a-z0-9])([A-Z])', r'\1_\2', s)`. */
  function SplitCamel(s: string): string
    decreases |s|
  {
    if |s| >= 2 && (IsLower(s[0]) || IsDigit(s[0])) && IsUpper(s[1]) then
      [s[0], '_', s[1]] + SplitCamel(s[2..])
    else if s == [] then []
    else [s[0]] + SplitCamel(s[1..])
  }

  /** `c.lower()` on an ASCII character; other characters are not part of this model and are kept. */
  function LowerChar(c: char): (r: char)
    ensures !IsUpper(r)
    ensures IsUpper(c) ==> IsLower(r) && r as int - c as int == 32
    ensures !IsUpper(c) ==> r == c
  {
    if IsUpper(c) then (c as int + 32) as char else c
  }

  /** `s.lower()` */
  function Lower(s: string): (r: string)
    ensures |r| == |s| && NoUpper(r)
    ensures forall i :: 0 <= i < |s| ==> r[i] == LowerChar(s[i])
  {
    seq(|s|, i requires 0 <= i < |s| => LowerChar(s[i]))
  }

  function ToSnakeCase(name: string): (r: string)
    ensures NoUpper(r)
  {
    Lower(SplitCamel(SplitWords(name)))
  }

  // ---------------------------------------------------------------------------
  // Text without uppercase letters is left alone

  lemma {:induction false} SplitWordsNoUpper(s: string)
    requires NoUpper(s)
    ensures SplitWords(s) == s
    decreases |s|
  {
    if s != [] {
      assert NoUpper(s[1..]);
      SplitWordsNoUpper(s[1..]);
      assert s == [s[0]] + s[1..];
    }
  }

  lemma {:induction false} SplitCamelNoUpper(s: string)
    requires NoUpper(s)
    ensures SplitCamel(s) == s
    decreases |s|
  {
    if s != [] {
      assert NoUpper(s[1..]);
      SplitCamelNoUpper(s[1..]);
      assert s == [s[0]] + s[1..];
    }
  }

  lemma LowerNoUpper(s: string)
    requires NoUpper(s)
    ensures Lower(s) == s
  {
  }

  /** A string without uppercase letters is its own snake case. */
  lemma ToSnakeCaseNoUpper(s: string)
    requires NoUpper(s)
    ensures ToSnakeCase(s) == s
  {
    SplitWordsNoUpper(s);
    SplitCamelNoUpper(s);
    LowerNoUpper(s);
  }

  /** A name already made of `[a-z0-9_]` comes back unchanged. */
  lemma SnakeAlphabetFixed(s: string)
    requires forall i :: 0 <= i < |s| ==> IsLower(s[i]) || IsDigit(s[i]) || s[i] == '_'
    ensures ToSnakeCase(s) == s
  {
    ToSnakeCaseNoUpper(s);
  }

  /** Converting twice is converting once. */
  lemma ToSnakeCaseIdempotent(s: string)
    ensures ToSnakeCase(ToSnakeCase(s)) == ToSnakeCase(s)
  {
    ToSnakeCaseNoUpper(ToSnakeCase(s));
  }

  // ---------------------------------------------------------------------------
  // Only underscores are inserted, and only between two characters

  /**
    `t` is `s` with `_` characters inserted, each of them after some character
    of `s` (after the start when `started`) and before another one.
  */
  predicate Weave(t: string, s: string, started: bool)
    decreases |t|
  {
    if t == [] then s == []
    else
      (s != [] && t[0] == s[0] && Weave(t[1..], s[1..], true)) ||
      (t[0] == '_' && started && s != [] && Weave(t[1..], s, true))
  }

  lemma {:induction false} WeaveIdentity(s: string, started: bool)
    ensures Weave(s, s, started)
    decreases |s|
  {
    if s != [] {
      WeaveIdentity(s[1..], true);
    }
  }

  lemma {:induction false} WeavePrefix(p: string, t: string, s: string, started: bool)
    requires Weave(t, s, started || p != [])
    ensures Weave(p + t, p + s, started)
    decreases |p|
  {
    if p != [] {
      assert (p + t)[0] == p[0] && (p + s)[0] == p[0];
      assert (p + t)[1..] == p[1..] + t;
      assert (p + s)[1..] == p[1..] + s;
      WeavePrefix(p[1..], t, s, true);
    } else {
      assert p + t == t && p + s == s;
    }
  }

  lemma {:induction false} WeaveNoneLeft(t: string, started: bool)
    requires Weave(t, [], started)
    ensures t == []
  {
  }

  /** Underscores inserted into text that itself had underscores inserted: still only insertions. */
  lemma {:induction false} WeaveTrans(u: string, t: string, s: string, a: bool, b: bool)
    requires Weave(u, t, a) && Weave(t, s, b) && (a ==> b)
    ensures Weave(u, s, b)
    decreases |u| + |t|
  {
    if u == [] {
      assert t == [];
    } else if t != [] && u[0] == t[0] && Weave(u[1..], t[1..], true) {
      if s != [] && t[0] == s[0] && Weave(t[1..], s[1..], true) {
        WeaveTrans(u[1..], t[1..], s[1..], true, true);
      } else {
        WeaveTrans(u[1..], t[1..], s, true, true);
      }
    } else {
      assert u[0] == '_' && a && t != [] && Weave(u[1..], t, true);
      if s == [] {
        WeaveNoneLeft(t, b);
        assert false;
      }
      WeaveTrans(u[1..], t, s, true, b);
    }
  }

  /** Lowercasing both sides keeps the insertions, since `_` is not a letter. */
  lemma {:induction false} WeaveLower(t: string, s: string, started: bool)
    requires Weave(t, s, started)
    ensures Weave(Lower(t), Lower(s), started)
    decreases |t|
  {
    if t != [] {
      assert Lower(t)[1..] == Lower(t[1..]);
      if s != [] && t[0] == s[0] && Weave(t[1..], s[1..], true) {
        assert Lower(s)[1..] == Lower(s[1..]);
        WeaveLower(t[1..], s[1..], true);
      } else {
        WeaveLower(t[1..], s, true);
      }
    }
  }

  lemma {:induction false} WeaveLength(t: string, s: string, started: bool)
    requires Weave(t, s, started)
    ensures |t| >= |s|
    decreases |t|
  {
    if t != [] {
      if s != [] && t[0] == s[0] && Weave(t[1..], s[1..], true) {
        WeaveLength(t[1..], s[1..], true);
      } else {
        WeaveLength(t[1..], s, true);
      }
    }
  }

  /** `x` then an inserted `_`, then a non-empty run of `s`'s own characters. */
  lemma UnderscoreAfterFirst(x: char, mid: string, r: string, rest: string, started: bool)
    requires mid != [] && Weave(r, rest, true)
    ensures Weave([x, '_'] + mid + r, [x] + mid + rest, started)
  {
    WeavePrefix(mid, r, rest, true);
    var u := [x, '_'] + mid + r;
    var v := [x] + mid + rest;
    assert u[0] == v[0] == x;
    assert u[1..] == ['_'] + (mid + r);
    assert u[1..][1..] == mid + r;
    assert v[1..] == mid + rest;
  }

  /** One match of the first substitution, given that the rest of the text only had insertions. */
  lemma SplitWordsWeaveMatch(s: string, started: bool)
    requires WordAt(s)
    requires Weave(SplitWords(s[WordEnd(s)..]), s[WordEnd(s)..], true)
    ensures Weave(SplitWords(s), s, started)
  {
    var e := WordEnd(s);
    var rest := s[e..];
    assert SplitWords(s) == [s[0], '_'] + s[1..e] + SplitWords(rest);
    assert s == [s[0]] + s[1..e] + rest by {
      assert s[1..] == s[1..e] + rest;
      assert s == [s[0]] + s[1..];
    }
    UnderscoreAfterFirst(s[0], s[1..e], SplitWords(rest), rest, started);
  }

  lemma {:induction false} SplitWordsWeave(s: string, started: bool)
    ensures Weave(SplitWords(s), s, started)
    decreases |s|
  {
    if WordAt(s) {
      SplitWordsWeave(s[WordEnd(s)..], true);
      SplitWordsWeaveMatch(s, started);
    } else if s != [] {
      SplitWordsWeave(s[1..], true);
      WeavePrefix([s[0]], SplitWords(s[1..]), s[1..], started);
      assert s == [s[0]] + s[1..];
    }
  }

  lemma {:induction false} SplitCamelWeave(s: string, started: bool)
    ensures Weave(SplitCamel(s), s, started)
    decreases |s|
  {
    if |s| >= 2 && (IsLower(s[0]) || IsDigit(s[0])) && IsUpper(s[1]) {
      SplitCamelWeave(s[2..], true);
      UnderscoreAfterFirst(s[0], [s[1]], SplitCamel(s[2..]), s[2..], started);
      assert s == [s[0]] + [s[1]] + s[2..];
      assert [s[0], '_', s[1]] == [s[0], '_'] + [s[1]];
    } else if s != [] {
      SplitCamelWeave(s[1..], true);
      WeavePrefix([s[0]], SplitCamel(s[1..]), s[1..], started);
      assert s == [s[0]] + s[1..];
    }
  }

  /**
    The snake-case name is the lowercased name with underscores inserted
    between existing characters: never first, never last, never removing or
    changing anything else, so it is never shorter.
  */
  lemma ToSnakeCaseInsertsOnly(name: string)
    ensures Weave(ToSnakeCase(name), Lower(name), false)
    ensures |ToSnakeCase(name)| >= |name|
    ensures name != [] ==> ToSnakeCase(name)[0] == LowerChar(name[0])
  {
    var w := SplitWords(name);
    var c := SplitCamel(w);
    SplitWordsWeave(name, false);
    SplitCamelWeave(w, false);
    WeaveTrans(c, w, name, false, false);
    WeaveLower(c, name, false);
    WeaveLength(ToSnakeCase(name), Lower(name), false);
  }

  // ---------------------------------------------------------------------------
  // Concrete names

  /** Outside a match the first substitution copies one character. */
  lemma SplitWordsCons(c: char, t: string)
    requires !WordAt([c] + t)
    ensures SplitWords([c] + t) == [c] + SplitWords(t)
  {
    assert ([c] + t)[1..] == t;
  }

  /** Outside a match the second substitution copies one character. */
  lemma SplitCamelCons(c: char, t: string)
    requires !(t != [] && (IsLower(c) || IsDigit(c)) && IsUpper(t[0]))
    ensures SplitCamel([c] + t) == [c] + SplitCamel(t)
  {
    assert ([c] + t)[1..] == t;
  }

  /** A lowercase letter or digit directly followed by a capital: the second substitution's match. */
  lemma SplitCamelPair(c: char, u: char, t: string)
    requires (IsLower(c) || IsDigit(c)) && IsUpper(u)
    ensures SplitCamel([c, u] + t) == [c, '_', u] + SplitCamel(t)
  {
    assert ([c, u] + t)[2..] == t;
  }

  /** Where the greedy `[a-z]+` stops: at the end of `run`. */
  lemma WordEndAt(c: char, u: char, run: string, t: string)
    requires c != '\n' && IsUpper(u) && run != []
    requires AllLower(run)
    requires t == [] || !IsLower(t[0])
    ensures WordAt([c, u] + run + t) && WordEnd([c, u] + run + t) == 2 + |run|
  {
    var s := [c, u] + run + t;
    assert forall i :: 2 <= i < 2 + |run| ==> s[i] == run[i - 2];
    assert t != [] ==> s[2 + |run|] == t[0];
  }

  /** A match of the first substitution: a capital, its lowercase run, then a non-lowercase character or the end. */
  lemma SplitWordsMatch(c: char, u: char, run: string, t: string)
    requires c != '\n' && IsUpper(u) && run != []
    requires AllLower(run)
    requires t == [] || !IsLower(t[0])
    ensures SplitWords([c, u] + run + t) == [c, '_', u] + run + SplitWords(t)
  {
    var s := [c, u] + run + t;
    WordEndAt(c, u, run, t);
    var e := 2 + |run|;
    assert s[0] == c && s[1..e] == [u] + run && s[e..] == t;
    calc {
      SplitWords(s);
      [s[0], '_'] + s[1..e] + SplitWords(s[e..]);
      [c, '_'] + ([u] + run) + SplitWords(t);
      { assert [c, '_'] + ([u] + run) == [c, '_', u] + run; }
      [c, '_', u] + run + SplitWords(t);
    }
  }

  /** A stretch with no capital after its first character is copied by the first substitution. */
  lemma {:induction false} SplitWordsCopy(p: string, t: string)
    requires p == [] || NoUpper(p[1..])
    requires p != [] && t != [] ==> !IsUpper(t[0])
    ensures SplitWords(p + t) == p + SplitWords(t)
    decreases |p|
  {
    if p != [] {
      var q := p[1..];
      assert p + t == [p[0]] + (q + t);
      assert q != [] ==> q[0] == p[1];
      SplitWordsCons(p[0], q + t);
      assert q == [] || NoUpper(q[1..]) by {
        if q != [] {
          assert forall i :: 0 <= i < |q| - 1 ==> q[1..][i] == p[1..][i + 1];
        }
      }
      SplitWordsCopy(q, t);
    } else {
      assert p + t == t;
    }
  }

  /** No lowercase letter or digit directly followed by a capital. */
  predicate NoCamelBoundary(s: string) {
    forall i :: 0 <= i < |s| - 1 ==> !((IsLower(s[i]) || IsDigit(s[i])) && IsUpper(s[i + 1]))
  }

  /** Without such a pair the second substitution changes nothing. */
  lemma {:induction false} SplitCamelNoBoundary(s: string)
    requires NoCamelBoundary(s)
    ensures SplitCamel(s) == s
    decreases |s|
  {
    if s != [] {
      assert NoCamelBoundary(s[1..]) by {
        forall i | 0 <= i < |s| - 2
          ensures !((IsLower(s[1..][i]) || IsDigit(s[1..][i])) && IsUpper(s[1..][i + 1]))
        {
          assert s[1..][i] == s[i + 1] && s[1..][i + 1] == s[i + 2];
        }
      }
      SplitCamelNoBoundary(s[1..]);
      SplitCamelCons(s[0], s[1..]);
      assert s == [s[0]] + s[1..];
    }
  }

  lemma SplitWordsDDate()
    ensures SplitWords("dDate") == "d_Date"
  {
    SplitWordsMatch('d', 'D', "ate", "");
  }

  lemma SplitWordsPeriodDate()
    ensures SplitWords("PeriodDate") == "Period_Date"
  {
    SplitWordsDDate();
    SplitWordsCopy("Perio", "dDate");
    assert "Perio" + "dDate" == "PeriodDate";
    assert "Perio" + "d_Date" == "Period_Date";
  }

  lemma SplitCamelPeriodDate()
    ensures SplitCamel("Period_Date") == "Period_Date"
  {
    SplitCamelNoBoundary("Period_Date");
  }

  lemma LowerPeriodDate()
    ensures Lower("Period_Date") == "period_date"
  {
  }

  /** The column the importer then looks for. */
  lemma PeriodDateExample()
    ensures ToSnakeCase("PeriodDate") == "period_date"
  {
    SplitWordsPeriodDate();
    SplitCamelPeriodDate();
    assert ToSnakeCase("PeriodDate") == Lower("Period_Date");
    LowerPeriodDate();
  }

  lemma SplitWordsAcronym()
    ensures SplitWords("ABCDef") == "ABC_Def"
  {
    SplitWordsMatch('C', 'D', "ef", "");
    assert SplitWords("CDef") == "C_Def";
    SplitWordsCons('B', "CDef");
    SplitWordsCons('A', "BCDef");
  }

  lemma SplitCamelAcronym()
    ensures SplitCamel("ABC_Def") == "ABC_Def"
  {
    SplitCamelCons('f', "");
    SplitCamelCons('e', "f");
    SplitCamelCons('D', "ef");
    SplitCamelCons('_', "Def");
    SplitCamelCons('C', "_Def");
    SplitCamelCons('B', "C_Def");
    SplitCamelCons('A', "BC_Def");
  }

  lemma LowerAcronym()
    ensures Lower("ABC_Def") == "abc_def"
  {
  }

  /** An acronym followed by a word: the break comes before the word's capital. */
  lemma AcronymExample()
    ensures ToSnakeCase("ABCDef") == "abc_def"
  {
    SplitWordsAcronym();
    SplitCamelAcronym();
    assert ToSnakeCase("ABCDef") == Lower("ABC_Def");
    LowerAcronym();
  }

  lemma SplitWordsValue2X()
    ensures SplitWords("value2X") == "value2X"
  {
    SplitWordsCons('X', "");
    SplitWordsCons('2', "X");
    SplitWordsCons('e', "2X");
    SplitWordsCons('u', "e2X");
    SplitWordsCons('l', "ue2X");
    SplitWordsCons('a', "lue2X");
    SplitWordsCons('v', "alue2X");
  }

  lemma SplitCamelValue2X()
    ensures SplitCamel("value2X") == "value2_X"
  {
    SplitCamelPair('2', 'X', "");
    SplitCamelCons('e', "2X");
    SplitCamelCons('u', "e2X");
    SplitCamelCons('l', "ue2X");
    SplitCamelCons('a', "lue2X");
    SplitCamelCons('v', "alue2X");
  }

  lemma LowerValue2X()
    ensures Lower("value2_X") == "value2_x"
  {
  }

  /** A digit followed by a capital. */
  lemma DigitCapitalExample()
    ensures ToSnakeCase("value2X") == "value2_x"
  {
    SplitWordsValue2X();
    SplitCamelValue2X();
    assert ToSnakeCase("value2X") == Lower("value2_X");
    LowerValue2X();
  }
}
