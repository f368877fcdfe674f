/**
 The difficulty presets: a fixed table keyed by canonical names, the name
 canonicaliser that lets "Too_Hard", " too-hard " and "TOO   HARD" all find
 the same entry, and the lookup that fails with the sorted list of names.

 Characters are modelled as ASCII as far as case and whitespace go: `Lower`
 folds only 'A'..'Z', and the whitespace set is the ASCII part of the one
 Python's `str.split` uses.
 */
module Difficulties {
  import opened Results
  import opened Boards

  datatype Difficulty = Difficulty(name: string, width: int, height: int, mines: int)

  /** The preset table. */
  const Levels: map<string, Difficulty> := map[
    "easy" := Difficulty("easy", 9, 9, 10),
    "medium" := Difficulty("medium", 16, 16, 40),
    "hard" := Difficulty("hard", 30, 16, 99),
    "too hard" := Difficulty("too hard", 30, 24, 180)]

  /** The preset names in the order Python's `sorted` puts them. */
  const SortedNames: seq<string> := ["easy", "hard", "medium", "too hard"]

  /** The error the lookup raises: the name asked for and the names available. */
  datatype LookupError = UnknownDifficulty(name: string, available: seq<string>)

  /** ASCII whitespace as `str.split` and `str.strip` see it: tab to carriage return, the four separators, space. */
  predicate IsSpace(c: char) {
    9 <= c as int <= 13 || 28 <= c as int <= 31 || c == ' '
  }

  predicate IsUpper(c: char) {
    'A' <= c <= 'Z'
  }

  function Lower(c: char): (l: char)
    ensures !IsUpper(l)
    ensures IsSpace(l) <==> IsSpace(c)
    ensures !IsUpper(c) ==> l == c
  {
    if IsUpper(c) then (c as int + 32) as char else c
  }

  /** One character after `lower()` and the two `replace` calls: `_` and `-` become a space. */
  function Canon(c: char): (r: char)
    ensures r != '_' && r != '-' && !IsUpper(r)
    ensures IsSpace(c) ==> r == c
  {
    if c == '_' || c == '-' then ' ' else Lower(c)
  }

  function CanonAll(s: string): (r: string)
    ensures |r| == |s|
  {
    seq(|s|, i requires 0 <= i < |s| => Canon(s[i]))
  }

  /** The length of the word at the front of `s`: the non-space characters before the first space. */
  function WordLen(s: string): (n: nat)
    ensures n <= |s|
    ensures forall i :: 0 <= i < n ==> !IsSpace(s[i])
    ensures n < |s| ==> IsSpace(s[n])
  {
    if |s| == 0 || IsSpace(s[0]) then 0 else 1 + WordLen(s[1..])
  }

  /** `str.split()` with no separator: the maximal runs of non-space characters, in order. */
  function Words(s: string): (ws: seq<string>)
    decreases |s|
  {
    if |s| == 0 then []
    else if IsSpace(s[0]) then Words(s[1..])
    else
      var n := WordLen(s);
      [s[..n]] + Words(s[n..])
  }

  /** `split()` yields non-empty words of characters drawn from the input, none of them whitespace. */
  lemma {:induction false} WordsShape(s: string)
    ensures forall w :: w in Words(s) ==> |w| > 0 && forall c :: c in w ==> c in s && !IsSpace(c)
    decreases |s|
  {
    if |s| > 0 {
      if IsSpace(s[0]) {
        WordsShape(s[1..]);
        assert forall c :: c in s[1..] ==> c in s;
      } else {
        var n := WordLen(s);
        WordsShape(s[n..]);
        assert forall c :: c in s[n..] ==> c in s;
        assert forall c :: c in s[..n] ==> c in s && !IsSpace(c);
      }
    }
  }

  /** `" ".join(ws)`. */
  function Join(ws: seq<string>): string {
    if |ws| == 0 then ""
    else if |ws| == 1 then ws[0]
    else ws[0] + " " + Join(ws[1..])
  }

  /** `normalize_name`: strip, lower-case, `_` and `-` to spaces, and collapse whitespace runs to one space. */
  function NormalizeName(name: string): string {
    Join(Words(CanonAll(name)))
  }

  /** A character the canonical form may hold besides the single spaces between words. */
  predicate Clean(c: char) {
    c != '_' && c != '-' && !IsUpper(c) && !IsSpace(c)
  }

  /** What `Join` of the words of a canonical string is made of: non-empty words of clean characters. */
  ghost predicate GoodWords(ws: seq<string>) {
    forall w :: w in ws ==> |w| > 0 && forall c :: c in w ==> Clean(c)
  }

  /**
   A canonical name: no `_`, `-` or upper-case letter; the only whitespace is
   the space, and every space sits between two non-space characters, so there
   is none at either end and never two in a row.
   */
  ghost predicate Canonical(s: string) {
    && (forall i :: 0 <= i < |s| ==> s[i] != '_' && s[i] != '-' && !IsUpper(s[i]))
    && (forall i :: 0 <= i < |s| && IsSpace(s[i]) ==> s[i] == ' ' && 0 < i < |s| - 1 && !IsSpace(s[i - 1]) && !IsSpace(s[i + 1]))
  }

  lemma WordsOfCanon(s: string)
    ensures GoodWords(Words(CanonAll(s)))
  {
    var t := CanonAll(s);
    WordsShape(t);
    forall w, c | w in Words(t) && c in w ensures Clean(c) {
      var i :| 0 <= i < |t| && t[i] == c;
    }
  }

  /** `Join` of good words is canonical. */
  lemma {:induction false} JoinCanonical(ws: seq<string>)
    requires GoodWords(ws)
    ensures Canonical(Join(ws))
  {
    if |ws| == 1 {
      var w := ws[0];
      assert forall i :: 0 <= i < |w| ==> w[i] in w;
    } else if |ws| > 1 {
      var w, rest := ws[0], Join(ws[1..]);
      assert GoodWords(ws[1..]) by {
        forall v | v in ws[1..] ensures v in ws { }
      }
      JoinCanonical(ws[1..]);
      assert |rest| > 0 && !IsSpace(rest[0]) by {
        JoinFront(ws[1..]);
      }
      var s := w + " " + rest;
      assert forall i :: 0 <= i < |w| ==> s[i] == w[i] && w[i] in w;
      assert forall i :: |w| < i < |s| ==> s[i] == rest[i - |w| - 1];
      assert s[|w|] == ' ' && s[|w| + 1] == rest[0];
      assert w[|w| - 1] in w;
    }
  }

  /** `Join` of good words starts with a non-space character. */
  lemma JoinFront(ws: seq<string>)
    requires GoodWords(ws) && |ws| > 0
    ensures |Join(ws)| > 0 && Join(ws)[0] == ws[0][0] && !IsSpace(Join(ws)[0])
  {
    assert ws[0] in ws && ws[0][0] in ws[0];
  }

  /** The output of `normalize_name` is canonical. */
  lemma NormalizeCanonical(name: string)
    ensures Canonical(NormalizeName(name))
  {
    WordsOfCanon(name);
    JoinCanonical(Words(CanonAll(name)));
  }

  /** `WordLen` is determined by where the first space is. */
  lemma WordLenIs(s: string, n: nat)
    requires n <= |s| && (forall i :: 0 <= i < n ==> !IsSpace(s[i])) && (n < |s| ==> IsSpace(s[n]))
    ensures WordLen(s) == n
  {
  }

  /** Splitting undoes joining good words. */
  lemma {:induction false} WordsJoin(ws: seq<string>)
    requires GoodWords(ws)
    ensures Words(Join(ws)) == ws
  {
    if |ws| == 1 {
      var w := ws[0];
      assert forall i :: 0 <= i < |w| ==> w[i] in w;
      WordLenIs(w, |w|);
      assert w[..|w|] == w && w[|w|..] == [];
    } else if |ws| > 1 {
      var w, rest := ws[0], ws[1..];
      assert GoodWords(rest) by {
        forall v | v in rest ensures v in ws { }
      }
      var s := w + " " + Join(rest);
      assert w[0] in w && s[0] == w[0];
      assert forall i :: 0 <= i < |w| ==> s[i] == w[i] && w[i] in w;
      WordLenIs(s, |w|);
      assert s[..|w|] == w;
      assert s[|w|..][1..] == Join(rest);
      WordsJoin(rest);
    }
  }

  /** A name that is already canonical text of good words keeps its characters under `CanonAll`. */
  lemma CanonJoin(ws: seq<string>)
    requires GoodWords(ws)
    ensures CanonAll(Join(ws)) == Join(ws)
  {
    var s := Join(ws);
    JoinCanonical(ws);
    forall i | 0 <= i < |s| ensures Canon(s[i]) == s[i] {
      if IsSpace(s[i]) {
      } else {
        assert !IsUpper(s[i]) && s[i] != '_' && s[i] != '-';
      }
    }
  }

  /** `normalize_name` is idempotent. */
  lemma NormalizeIdempotent(name: string)
    ensures NormalizeName(NormalizeName(name)) == NormalizeName(name)
  {
    var ws := Words(CanonAll(name));
    WordsOfCanon(name);
    CanonJoin(ws);
    WordsJoin(ws);
  }

  /** The words of a string that starts with a word: that word, then the words of the rest. */
  lemma WordsFront(s: string)
    requires |s| > 0 && !IsSpace(s[0])
    ensures Words(s) == [s[..WordLen(s)]] + Words(s[WordLen(s)..])
  {
  }

  /** A space after `u` ends the first word of `u` there at the latest. */
  lemma WordLenBefore(u: string, c: char, v: string)
    requires IsSpace(c)
    ensures WordLen(u + [c] + v) == WordLen(u)
  {
    var s, m := u + [c] + v, WordLen(u);
    assert forall i :: 0 <= i < m ==> s[i] == u[i];
    assert m < |u| ==> s[m] == u[m];
    assert m == |u| ==> s[m] == c;
    WordLenIs(s, m);
  }

  lemma SliceAround(u: string, t: string, m: nat)
    requires m <= |u|
    ensures (u + t)[..m] == u[..m] && (u + t)[m..] == u[m..] + t
  {
  }

  /** Splitting a string at one space character splits its words. */
  lemma {:induction false} WordsSplit(u: string, c: char, v: string)
    requires IsSpace(c)
    ensures Words(u + [c] + v) == Words(u) + Words(v)
    decreases |u|
  {
    var s := u + [c] + v;
    if |u| == 0 {
      assert s[0] == c && s[1..] == v;
    } else if IsSpace(u[0]) {
      assert s[0] == u[0] && s[1..] == u[1..] + [c] + v;
      WordsSplit(u[1..], c, v);
    } else {
      WordsSplit(u[WordLen(u)..], c, v);
      WordsSplitWord(u, c, v);
    }
  }

  /** The step of `WordsSplit` for a string that starts with a word. */
  lemma WordsSplitWord(u: string, c: char, v: string)
    requires IsSpace(c) && |u| > 0 && !IsSpace(u[0])
    requires Words(u[WordLen(u)..] + [c] + v) == Words(u[WordLen(u)..]) + Words(v)
    ensures Words(u + [c] + v) == Words(u) + Words(v)
  {
    var s, m := u + [c] + v, WordLen(u);
    WordLenBefore(u, c, v);
    assert s[0] == u[0];
    WordsFront(s);
    WordsFront(u);
    SliceAround(u, [c] + v, m);
    assert u + [c] + v == u + ([c] + v);
    assert u[m..] + ([c] + v) == u[m..] + [c] + v;
  }

  /** Whitespace in front of a string adds no words. */
  lemma {:induction false} WordsLeadingSpace(r: string, v: string)
    requires forall i :: 0 <= i < |r| ==> IsSpace(r[i])
    ensures Words(r + v) == Words(v)
  {
    if |r| > 0 {
      assert (r + v)[0] == r[0];
      assert (r + v)[1..] == r[1..] + v;
      assert Words(r + v) == Words(r[1..] + v);
      WordsLeadingSpace(r[1..], v);
    } else {
      assert r + v == v;
    }
  }

  lemma CanonAllConcat(a: string, b: string)
    ensures CanonAll(a + b) == CanonAll(a) + CanonAll(b)
  {
  }

  /** A run of separators (whitespace, `_` or `-`). */
  predicate Separators(r: string) {
    forall i :: 0 <= i < |r| ==> IsSpace(Canon(r[i]))
  }

  lemma CanonSeparators(r: string)
    requires Separators(r)
    ensures forall i :: 0 <= i < |CanonAll(r)| ==> IsSpace(CanonAll(r)[i])
  {
  }

  /** Names whose characters agree after case folding and mapping `_` and `-` to a space normalise alike. */
  lemma NormalizeCaseAndSeparators(s: string, t: string)
    requires |s| == |t| && forall i :: 0 <= i < |s| ==> Canon(s[i]) == Canon(t[i])
    ensures NormalizeName(s) == NormalizeName(t)
  {
    assert CanonAll(s) == CanonAll(t);
  }

  /** Any non-empty run of separators inside a name counts as one space. */
  lemma NormalizeCollapsesRuns(u: string, r: string, v: string)
    requires |r| > 0 && Separators(r)
    ensures NormalizeName(u + r + v) == NormalizeName(u + " " + v)
  {
    CanonAllConcat(u + r, v);
    CanonAllConcat(u, r);
    CanonAllConcat(u + " ", v);
    CanonAllConcat(u, " ");
    var cu, cr, cv := CanonAll(u), CanonAll(r), CanonAll(v);
    CanonSeparators(r);
    assert cr == [cr[0]] + cr[1..];
    assert cu + cr + cv == cu + [cr[0]] + (cr[1..] + cv);
    WordsSplit(cu, cr[0], cr[1..] + cv);
    WordsLeadingSpace(cr[1..], cv);
    assert CanonAll(" ") == [' '];
    WordsSplit(cu, ' ', cv);
  }

  /** Separators around a name are dropped. */
  lemma NormalizeStrips(r1: string, s: string, r2: string)
    requires Separators(r1) && Separators(r2)
    ensures NormalizeName(r1 + s + r2) == NormalizeName(s)
  {
    CanonAllConcat(r1 + s, r2);
    CanonAllConcat(r1, s);
    var c1, cs, c2 := CanonAll(r1), CanonAll(s), CanonAll(r2);
    CanonSeparators(r1);
    CanonSeparators(r2);
    WordsLeadingSpace(c1, cs + c2);
    assert c1 + cs + c2 == c1 + (cs + c2);
    if |c2| > 0 {
      assert cs + c2 == cs + [c2[0]] + c2[1..];
      WordsSplit(cs, c2[0], c2[1..]);
      WordsLeadingSpace(c2[1..], []);
      assert c2[1..] + [] == c2[1..];
      assert Words(c2[1..]) == [];
      assert Words(cs + c2) == Words(cs);
    } else {
      assert cs + c2 == cs;
    }
  }

  /** `get_difficulty`: the preset under the normalised name, or the error naming the sorted presets. */
  function GetDifficulty(name: string): (r: Result<Difficulty, LookupError>)
    ensures r.Ok? <==> NormalizeName(name) in Levels
    ensures r.Ok? ==> r.value == Levels[NormalizeName(name)] && r.value.name == NormalizeName(name)
    ensures r.Err? ==> r.error == UnknownDifficulty(name, SortedNames)
  {
    var key := NormalizeName(name);
    if key !in Levels then Err(UnknownDifficulty(name, SortedNames)) else Ok(Levels[key])
  }

  /** `list_difficulties`: a copy of the table. */
  function ListDifficulties(): (m: map<string, Difficulty>)
    ensures m.Keys == Levels.Keys && forall k :: k in m ==> m[k] == Levels[k]
  {
    map k | k in Levels :: Levels[k]
  }

  /** Python's string order: by code point, a proper prefix first. */
  predicate LexLess(a: string, b: string) {
    if |a| == 0 then |b| > 0
    else if |b| == 0 then false
    else if a[0] != b[0] then a[0] < b[0]
    else LexLess(a[1..], b[1..])
  }

  /** The names in the error are the table's keys, each once, in ascending order. */
  lemma SortedNamesSorted()
    ensures forall i, j :: 0 <= i < j < |SortedNames| ==> LexLess(SortedNames[i], SortedNames[j])
    ensures forall k :: k in Levels <==> k in SortedNames
  {
  }

  /** Text made of good words joined by single spaces is its own normal form. */
  lemma NormalizeJoin(ws: seq<string>)
    requires GoodWords(ws)
    ensures NormalizeName(Join(ws)) == Join(ws)
  {
    CanonJoin(ws);
    WordsJoin(ws);
  }

  lemma CleanWord(w: string)
    requires |w| > 0 && forall i :: 0 <= i < |w| ==> Clean(w[i])
    ensures NormalizeName(w) == w
  {
    assert Join([w]) == w;
    NormalizeJoin([w]);
  }

  lemma CleanWords(u: string, v: string)
    requires |u| > 0 && forall i :: 0 <= i < |u| ==> Clean(u[i])
    requires |v| > 0 && forall i :: 0 <= i < |v| ==> Clean(v[i])
    ensures NormalizeName(u + " " + v) == u + " " + v
  {
    assert Join([u, v]) == u + " " + v;
    NormalizeJoin([u, v]);
  }

  lemma TooHardCanonical()
    ensures NormalizeName("too hard") == "too hard"
  {
    CleanWords("too", "hard");
    assert "too" + " " + "hard" == "too hard";
  }

  /** Every key of the table is its own normal form. */
  lemma KeysCanonical(k: string)
    requires k in Levels
    ensures NormalizeName(k) == k
  {
    assert k in {"easy", "medium", "hard", "too hard"};
    if k == "too hard" {
      TooHardCanonical();
    } else {
      CleanWord(k);
    }
  }

  /** Every preset's name is its key, so looking a preset up by its own name finds it. */
  lemma PresetsFound(k: string)
    requires k in Levels
    ensures Levels[k].name == k
    ensures GetDifficulty(k) == Ok(Levels[k])
  {
    KeysCanonical(k);
  }

  /** Every preset satisfies the board constructor's constraints. */
  lemma PresetsConstructible(k: string)
    requires k in Levels
    ensures NewBoard(Levels[k].width, Levels[k].height, Levels[k].mines).Ok?
  {
  }

  /** Names that normalise alike find the same preset or fail alike. */
  lemma LookupInsensitive(s: string, t: string)
    requires NormalizeName(s) == NormalizeName(t)
    ensures GetDifficulty(s).Ok? == GetDifficulty(t).Ok?
    ensures GetDifficulty(s).Ok? ==> GetDifficulty(s) == GetDifficulty(t)
  {
  }
}
