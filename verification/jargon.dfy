/**
 * The jargon simplifier of the client script: a fixed table of medical terms
 * with plain-English glosses, and `simplifyJargon`, which rewrites every
 * whole-word, case-insensitive occurrence of a term as the term followed by
 * its gloss in parentheses.
 *
 * The source runs one global regular-expression replacement `\bterm\b` (flags
 * `gi`) per table entry, in table order; `ReplaceAll` models one such pass as
 * the regular-expression engine performs it, and `ApplyAll` the sequence of
 * passes. `AnnotateWords` is an independent, word-by-word reference: it splits
 * the text into maximal runs of word characters and glosses each run that is
 * a term. The lemmas show that the passes compute the reference.
 */
module Jargon {
  import opened Wrappers
  import opened Text
  import MedicineModel

  /** One row of the jargon table. */
  datatype Entry = Entry(term: string, gloss: string)

  /** The jargon table, in the order its passes run. */
  const JargonMap: seq<Entry> := [
    Entry("myalgia", "muscle pain"),
    Entry("nausea", "feeling sick"),
    Entry("dyspepsia", "indigestion"),
    Entry("pruritus", "itching"),
    Entry("erythema", "skin redness"),
    Entry("edema", "swelling"),
    Entry("tachycardia", "fast heartbeat"),
    Entry("hypotension", "low blood pressure"),
    Entry("hypertension", "high blood pressure"),
    Entry("somnolence", "drowsiness"),
    Entry("contraindicated", "should not be used"),
    Entry("hepatic", "liver-related"),
    Entry("renal", "kidney-related"),
    Entry("anaphylaxis", "severe allergic reaction"),
    Entry("thrombosis", "blood clot"),
    Entry("arrhythmia", "irregular heartbeat"),
    Entry("dyspnea", "difficulty breathing"),
    Entry("flatulence", "gas"),
    Entry("alopecia", "hair loss"),
    Entry("vertigo", "dizziness"),
    Entry("insomnia", "difficulty sleeping"),
    Entry("pyrexia", "fever"),
    Entry("arthralgia", "joint pain"),
    Entry("rhinitis", "runny nose"),
    Entry("urticaria", "hives"),
    Entry("xerostomia", "dry mouth"),
    Entry("epistaxis", "nosebleed"),
    Entry("syncope", "fainting"),
    Entry("palpitations", "irregular heartbeat sensation"),
    Entry("diarrhea", "loose stools"),
    Entry("constipation", "difficulty passing stools"),
    Entry("vomiting", "throwing up"),
    Entry("headache", "head pain"),
    Entry("fatigue", "tiredness"),
    Entry("dysphagia", "difficulty swallowing"),
    Entry("tinnitus", "ringing in ears"),
    Entry("paresthesia", "tingling or numbness"),
    Entry("diaphoresis", "excessive sweating"),
    Entry("bradycardia", "slow heartbeat")
  ]

  /** What a matched occurrence becomes: the term as written in the table, a space, the gloss in parentheses. */
  function Annotation(e: Entry): string {
    e.term + " (" + e.gloss + ")"
  }

  /** A term that the pass treats literally: non-empty, lower-case ASCII letters only. */
  predicate ValidTerm(term: string) {
    0 < |term| && forall i :: 0 <= i < |term| ==> IsLower(term[i])
  }

  predicate AllValid(dict: seq<Entry>) {
    forall i :: 0 <= i < |dict| ==> ValidTerm(dict[i].term)
  }

  // ---------------------------------------------------------------------
  // The passes, as written
  // ---------------------------------------------------------------------

  /**
   * `\bterm\b` with the `i` flag matches at the head of `rest`, where
   * `prevWord` says whether the character before `rest` is a word character
   * (false at the start of the text).
   */
  predicate MatchesHere(rest: string, prevWord: bool, term: string) {
    && 0 < |term| <= |rest|
    && LowerStr(rest[..|term|]) == term
    && prevWord != IsWordChar(rest[0])
    && IsWordChar(rest[|term| - 1]) != (|term| < |rest| && IsWordChar(rest[|term|]))
  }

  /**
   * `rest.replace(/\bterm\b/gi, annotation)`: scanning left to right, a match
   * is replaced and the scan resumes after it; otherwise one character is
   * copied.
   */
  function ReplaceAll(rest: string, prevWord: bool, e: Entry): string
    decreases |rest|
  {
    if |rest| == 0 then ""
    else if MatchesHere(rest, prevWord, e.term) then
      Annotation(e) + ReplaceAll(rest[|e.term|..], IsWordChar(rest[|e.term| - 1]), e)
    else
      [rest[0]] + ReplaceAll(rest[1..], IsWordChar(rest[0]), e)
  }

  /** One pass per table entry, in table order, each on the previous pass's output. */
  function ApplyAll(text: string, dict: seq<Entry>): string
    decreases |dict|
  {
    if |dict| == 0 then text
    else ApplyAll(ReplaceAll(text, false, dict[0]), dict[1..])
  }

  /**
   * `simplifyJargon` over a given table: an absent or empty text, or the
   * sentinel itself, gives the sentinel; any other text goes through one
   * pass per entry.
   */
  function SimplifyWith(text: Option<string>, dict: seq<Entry>): (r: string)
    ensures text.None? || text == Some("") || text == Some(MedicineModel.NotAvailable)
            ==> r == MedicineModel.NotAvailable
  {
    match text
    case None => MedicineModel.NotAvailable
    case Some(t) =>
      if t == "" || t == MedicineModel.NotAvailable then MedicineModel.NotAvailable
      else ApplyAll(t, dict)
  }

  /** `simplifyJargon(text)` with the jargon table of the client script. */
  function SimplifyJargon(text: Option<string>): string {
    SimplifyWith(text, JargonMap)
  }

  // ---------------------------------------------------------------------
  // The word-by-word reference
  // ---------------------------------------------------------------------

  /** Length of the maximal run of word characters that starts `t`. */
  function WordRun(t: string): (n: nat)
    requires 0 < |t| && IsWordChar(t[0])
    ensures 0 < n <= |t|
    ensures forall k :: 0 <= k < n ==> IsWordChar(t[k])
    ensures n == |t| || !IsWordChar(t[n])
    decreases |t|
  {
    if |t| == 1 || !IsWordChar(t[1]) then 1 else 1 + WordRun(t[1..])
  }

  /** The first table entry whose term is `key`. */
  function Lookup(key: string, dict: seq<Entry>): (r: Option<Entry>)
    ensures r.None? <==> forall i :: 0 <= i < |dict| ==> dict[i].term != key
    ensures r.Some? ==> exists i :: 0 <= i < |dict| && dict[i] == r.value && r.value.term == key
                                    && forall j :: 0 <= j < i ==> dict[j].term != key
    decreases |dict|
  {
    if |dict| == 0 then None
    else if dict[0].term == key then Some(dict[0])
    else
      var r := Lookup(key, dict[1..]);
      assert r.Some? ==> exists i :: 0 <= i < |dict[1..]| && dict[1..][i] == r.value
                                     && forall j :: 0 <= j < i ==> dict[1..][j].term != key;
      r
  }

  /** A whole word as the table glosses it: annotated when it is a term ignoring case, kept otherwise. */
  function GlossWord(word: string, dict: seq<Entry>): string {
    match Lookup(LowerStr(word), dict)
    case Some(e) => Annotation(e)
    case None => word
  }

  /** Every maximal run of word characters glossed; everything else copied. */
  function AnnotateWords(t: string, dict: seq<Entry>): string
    decreases |t|
  {
    if |t| == 0 then ""
    else if !IsWordChar(t[0]) then [t[0]] + AnnotateWords(t[1..], dict)
    else
      var n := WordRun(t);
      GlossWord(t[..n], dict) + AnnotateWords(t[n..], dict)
  }

  /** Some maximal run of word characters of `t` is a term of `dict`, ignoring case. */
  predicate HasTerm(t: string, dict: seq<Entry>)
    decreases |t|
  {
    if |t| == 0 then false
    else if !IsWordChar(t[0]) then HasTerm(t[1..], dict)
    else
      var n := WordRun(t);
      Lookup(LowerStr(t[..n]), dict).Some? || HasTerm(t[n..], dict)
  }

  /** No annotation produced by an entry contains, as a whole word, a term of a later entry. */
  predicate Inert(dict: seq<Entry>)
    decreases |dict|
  {
    |dict| == 0 || (!HasTerm(Annotation(dict[0]), dict[1..]) && Inert(dict[1..]))
  }

  /** Two texts whose junction is not inside a run of word characters. */
  predicate SplitsAtBoundary(a: string, b: string) {
    |a| == 0 || |b| == 0 || !IsWordChar(a[|a| - 1]) || !IsWordChar(b[0])
  }

  // ---------------------------------------------------------------------
  // Lemmas
  // ---------------------------------------------------------------------

  /** The maximal word run is determined by where the word characters stop. */
  lemma {:induction false} WordRunUnique(t: string, m: nat)
    requires 0 < m <= |t|
    requires forall k :: 0 <= k < m ==> IsWordChar(t[k])
    requires m == |t| || !IsWordChar(t[m])
    ensures WordRun(t) == m
    decreases m
  {
    if m > 1 {
      WordRunUnique(t[1..], m - 1);
    }
  }

  /** A match of a valid term starts with a word character. */
  lemma MatchStartsWithWordChar(rest: string, prevWord: bool, term: string)
    requires ValidTerm(term)
    ensures MatchesHere(rest, prevWord, term) ==> IsWordChar(rest[0])
  {
    if MatchesHere(rest, prevWord, term) {
      assert LowerStr(rest[..|term|])[0] == LowerChar(rest[0]);
      LowerLetterIsWordChar(rest[0]);
    }
  }

  /** A match of a valid term at a word start covers exactly the maximal word run there. */
  lemma MatchIsWholeWord(t: string, term: string)
    requires ValidTerm(term)
    ensures MatchesHere(t, false, term) ==> WordRun(t) == |term|
  {
    if MatchesHere(t, false, term) {
      forall k | 0 <= k < |term|
        ensures IsWordChar(t[k])
      {
        assert LowerStr(t[..|term|])[k] == LowerChar(t[k]);
        LowerLetterIsWordChar(t[k]);
      }
      WordRunUnique(t, |term|);
    }
  }

  /** Before a non-word character (or the end) the previous character does not matter. */
  lemma ReplaceAllAfterBoundary(u: string, e: Entry)
    requires ValidTerm(e.term)
    requires |u| == 0 || !IsWordChar(u[0])
    ensures ReplaceAll(u, true, e) == ReplaceAll(u, false, e)
  {
    MatchStartsWithWordChar(u, true, e.term);
    MatchStartsWithWordChar(u, false, e.term);
  }

  /** Inside a run of word characters nothing matches, so the run is copied. */
  lemma {:induction false} ReplaceAllInsideWord(u: string, k: nat, e: Entry)
    requires k <= |u|
    requires forall i :: 0 <= i < k ==> IsWordChar(u[i])
    ensures ReplaceAll(u, true, e) == u[..k] + ReplaceAll(u[k..], true, e)
    decreases k
  {
    if k > 0 {
      ReplaceAllInsideWord(u[1..], k - 1, e);
      assert u[1..][..k - 1] == u[1..k];
      assert u[1..][k - 1..] == u[k..];
      assert u[..k] == [u[0]] + u[1..k];
    }
  }

  /** At a word start whose maximal run is the term, the pass emits the annotation and skips the run. */
  lemma ReplaceAllAtTerm(t: string, e: Entry)
    requires ValidTerm(e.term)
    requires 0 < |t| && IsWordChar(t[0]) && LowerStr(t[..WordRun(t)]) == e.term
    ensures ReplaceAll(t, false, e) == Annotation(e) + ReplaceAll(t[WordRun(t)..], false, e)
  {
    var n := WordRun(t);
    assert MatchesHere(t, false, e.term);
    ReplaceAllAfterBoundary(t[n..], e);
  }

  /** Where nothing matches, the pass copies one character. */
  lemma ReplaceAllCopies(t: string, prevWord: bool, e: Entry)
    requires 0 < |t| && !MatchesHere(t, prevWord, e.term)
    ensures ReplaceAll(t, prevWord, e) == [t[0]] + ReplaceAll(t[1..], IsWordChar(t[0]), e)
  {
  }

  lemma SliceAfterHead(t: string, n: nat)
    requires 0 < n <= |t|
    ensures t[1..][..n - 1] == t[1..n] && t[1..][n - 1..] == t[n..] && t[..n] == [t[0]] + t[1..n]
  {
  }

  lemma Regroup(t: string, n: nat, a: string, x: string, y: string)
    requires 0 < n <= |t| && a == t[1..n] + x && x == y
    ensures [t[0]] + a == t[..n] + y
  {
    assert [t[0]] + (t[1..n] + x) == ([t[0]] + t[1..n]) + x;
    assert t[..n] == [t[0]] + t[1..n];
  }

  /** At a word start whose maximal run is not the term, the pass copies the run. */
  lemma ReplaceAllAtOtherWord(t: string, e: Entry)
    requires ValidTerm(e.term)
    requires 0 < |t| && IsWordChar(t[0]) && LowerStr(t[..WordRun(t)]) != e.term
    ensures ReplaceAll(t, false, e) == t[..WordRun(t)] + ReplaceAll(t[WordRun(t)..], false, e)
  {
    var n := WordRun(t);
    MatchIsWholeWord(t, e.term);
    assert !MatchesHere(t, false, e.term);
    var a := ReplaceAll(t[1..], true, e);
    ReplaceAllCopies(t, false, e);
    assert ReplaceAll(t, false, e) == [t[0]] + a;
    ReplaceAllInsideWord(t[1..], n - 1, e);
    SliceAfterHead(t, n);
    ReplaceAllAfterBoundary(t[n..], e);
    Regroup(t, n, a, ReplaceAll(t[n..], true, e), ReplaceAll(t[n..], false, e));
  }

  /** One regular-expression pass computes the word-by-word reference for its single entry. */
  lemma {:induction false} ReplaceAllIsAnnotateWords(t: string, e: Entry)
    requires ValidTerm(e.term)
    ensures ReplaceAll(t, false, e) == AnnotateWords(t, [e])
    decreases |t|
  {
    if |t| == 0 {
    } else if !IsWordChar(t[0]) {
      MatchStartsWithWordChar(t, false, e.term);
      ReplaceAllIsAnnotateWords(t[1..], e);
    } else {
      var n := WordRun(t);
      ReplaceAllIsAnnotateWords(t[n..], e);
      if LowerStr(t[..n]) == e.term {
        ReplaceAllAtTerm(t, e);
      } else {
        ReplaceAllAtOtherWord(t, e);
      }
    }
  }

  /** No text holds a term of the empty table. */
  lemma {:induction false} NoTermOfEmptyTable(t: string)
    ensures !HasTerm(t, [])
    decreases |t|
  {
    if |t| > 0 {
      if !IsWordChar(t[0]) {
        NoTermOfEmptyTable(t[1..]);
      } else {
        NoTermOfEmptyTable(t[WordRun(t)..]);
      }
    }
  }

  /** A text without any term of the table is returned unchanged by the reference. */
  lemma {:induction false} NoTermVerbatim(t: string, dict: seq<Entry>)
    requires !HasTerm(t, dict)
    ensures AnnotateWords(t, dict) == t
    decreases |t|
  {
    if |t| == 0 {
    } else if !IsWordChar(t[0]) {
      NoTermVerbatim(t[1..], dict);
      assert t == [t[0]] + t[1..];
    } else {
      var n := WordRun(t);
      NoTermVerbatim(t[n..], dict);
      assert t == t[..n] + t[n..];
    }
  }

  /** The reference distributes over a split that does not cut a word. */
  lemma {:induction false} AnnotateWordsAppend(a: string, b: string, dict: seq<Entry>)
    requires SplitsAtBoundary(a, b)
    ensures AnnotateWords(a + b, dict) == AnnotateWords(a, dict) + AnnotateWords(b, dict)
    decreases |a|, 1
  {
    if |a| == 0 {
      assert a + b == b;
    } else if !IsWordChar(a[0]) {
      AppendAtNonWord(a, b, dict);
    } else {
      AppendAtWord(a, b, dict);
    }
  }

  lemma {:induction false} AppendAtNonWord(a: string, b: string, dict: seq<Entry>)
    requires SplitsAtBoundary(a, b) && 0 < |a| && !IsWordChar(a[0])
    ensures AnnotateWords(a + b, dict) == AnnotateWords(a, dict) + AnnotateWords(b, dict)
    decreases |a|, 0
  {
    var t := a + b;
    assert t[0] == a[0] && t[1..] == a[1..] + b;
    assert SplitsAtBoundary(a[1..], b) by {
      if 0 < |a[1..]| { assert a[1..][|a[1..]| - 1] == a[|a| - 1]; }
    }
    AnnotateWordsAppend(a[1..], b, dict);
    AnnotateWordsNonWordStep(t, dict);
    AnnotateWordsNonWordStep(a, dict);
  }

  lemma {:induction false} AppendAtWord(a: string, b: string, dict: seq<Entry>)
    requires SplitsAtBoundary(a, b) && 0 < |a| && IsWordChar(a[0])
    ensures AnnotateWords(a + b, dict) == AnnotateWords(a, dict) + AnnotateWords(b, dict)
    decreases |a|, 0
  {
    var n := WordRun(a);
    var t := a + b;
    WordRunOfAppend(a, b);
    assert t[..n] == a[..n];
    assert t[n..] == a[n..] + b;
    assert SplitsAtBoundary(a[n..], b) by {
      if 0 < |a[n..]| { assert a[n..][|a[n..]| - 1] == a[|a| - 1]; }
    }
    AnnotateWordsAppend(a[n..], b, dict);
    AnnotateWordsWordStep(t, dict);
    AnnotateWordsWordStep(a, dict);
  }

  /** One step of the reference at a non-word character. */
  lemma AnnotateWordsNonWordStep(t: string, dict: seq<Entry>)
    requires 0 < |t| && !IsWordChar(t[0])
    ensures AnnotateWords(t, dict) == [t[0]] + AnnotateWords(t[1..], dict)
  {
  }

  /** One step of the reference at the start of a word. */
  lemma AnnotateWordsWordStep(t: string, dict: seq<Entry>)
    requires 0 < |t| && IsWordChar(t[0])
    ensures AnnotateWords(t, dict) == GlossWord(t[..WordRun(t)], dict) + AnnotateWords(t[WordRun(t)..], dict)
  {
  }

  /** Appending after a word boundary does not lengthen the leading word. */
  lemma WordRunOfAppend(a: string, b: string)
    requires 0 < |a| && IsWordChar(a[0]) && SplitsAtBoundary(a, b)
    ensures WordRun(a + b) == WordRun(a)
  {
    var n := WordRun(a);
    forall k | 0 <= k < n
      ensures IsWordChar((a + b)[k])
    {
      assert (a + b)[k] == a[k];
    }
    if n < |a| {
      assert (a + b)[n] == a[n];
    } else if 0 < |b| {
      assert a[|a| - 1] == a[n - 1];
      assert (a + b)[n] == b[0];
    }
    WordRunUnique(a + b, n);
  }

  /** The reference copies a leading non-word character. */
  lemma AnnotateWordsHead(t: string, dict: seq<Entry>)
    requires 0 < |t| && !IsWordChar(t[0])
    ensures 0 < |AnnotateWords(t, dict)| && AnnotateWords(t, dict)[0] == t[0]
  {
  }

  /** A single whole word is glossed as a word. */
  lemma AnnotateOneWord(w: string, dict: seq<Entry>)
    requires 0 < |w| && forall k :: 0 <= k < |w| ==> IsWordChar(w[k])
    ensures AnnotateWords(w, dict) == GlossWord(w, dict)
  {
    WordRunUnique(w, |w|);
    assert w[..|w|] == w;
  }

  /**
   * Glossing with the first entry and then with the rest of the table is
   * glossing with the whole table, provided the first entry's annotation
   * holds no later term.
   */
  lemma {:induction false} AnnotateWordsCompose(t: string, e: Entry, rest: seq<Entry>)
    requires !HasTerm(Annotation(e), rest)
    ensures AnnotateWords(AnnotateWords(t, [e]), rest) == AnnotateWords(t, [e] + rest)
    decreases |t|
  {
    var dict := [e] + rest;
    assert dict[1..] == rest;
    if |t| == 0 {
    } else if !IsWordChar(t[0]) {
      var u := AnnotateWords(t[1..], [e]);
      assert AnnotateWords(t, [e]) == [t[0]] + u;
      assert ([t[0]] + u)[0] == t[0] && ([t[0]] + u)[1..] == u;
      AnnotateWordsCompose(t[1..], e, rest);
    } else {
      var n := WordRun(t);
      var w, tail := t[..n], t[n..];
      var g0, u := GlossWord(w, [e]), AnnotateWords(tail, [e]);
      assert AnnotateWords(t, [e]) == g0 + u;
      if |tail| > 0 {
        AnnotateWordsHead(tail, [e]);
      }
      AnnotateWordsAppend(g0, u, rest);
      AnnotateWordsCompose(tail, e, rest);
      if LowerStr(w) == e.term {
        NoTermVerbatim(Annotation(e), rest);
      } else {
        AnnotateOneWord(w, rest);
      }
    }
  }

  /** With a valid, inert table, the sequence of passes computes the word-by-word reference. */
  lemma {:induction false} ApplyAllIsAnnotateWords(t: string, dict: seq<Entry>)
    requires AllValid(dict) && Inert(dict)
    ensures ApplyAll(t, dict) == AnnotateWords(t, dict)
    decreases |dict|
  {
    if |dict| == 0 {
      NoTermOfEmptyTable(t);
      NoTermVerbatim(t, dict);
    } else {
      var u := ReplaceAll(t, false, dict[0]);
      ReplaceAllIsAnnotateWords(t, dict[0]);
      ApplyAllIsAnnotateWords(u, dict[1..]);
      AnnotateWordsCompose(t, dict[0], dict[1..]);
      assert [dict[0]] + dict[1..] == dict;
    }
  }

  /** A term of part of the table is a term of the whole table. */
  lemma {:induction false} HasTermOfPart(t: string, e: Entry, rest: seq<Entry>)
    ensures HasTerm(t, [e]) ==> HasTerm(t, [e] + rest)
    ensures HasTerm(t, rest) ==> HasTerm(t, [e] + rest)
    decreases |t|
  {
    var dict := [e] + rest;
    assert dict[1..] == rest;
    if |t| > 0 {
      if !IsWordChar(t[0]) {
        HasTermOfPart(t[1..], e, rest);
      } else {
        HasTermOfPart(t[WordRun(t)..], e, rest);
      }
    }
  }

  /** With valid terms, a text in which no term occurs as a whole word comes through every pass unchanged. */
  lemma {:induction false} NoTermPassesVerbatim(t: string, dict: seq<Entry>)
    requires AllValid(dict)
    requires !HasTerm(t, dict)
    ensures ApplyAll(t, dict) == t
    decreases |dict|
  {
    if |dict| > 0 {
      assert [dict[0]] + dict[1..] == dict;
      HasTermOfPart(t, dict[0], dict[1..]);
      ReplaceAllIsAnnotateWords(t, dict[0]);
      NoTermVerbatim(t, [dict[0]]);
      NoTermPassesVerbatim(t, dict[1..]);
    }
  }

  /**
   * `simplifyJargon` with a table of valid terms returns a text holding no
   * term as a whole word verbatim (the sentinel cases aside).
   */
  lemma NoTermSimplifiesVerbatim(t: string, dict: seq<Entry>)
    requires AllValid(dict)
    requires t != "" && t != MedicineModel.NotAvailable && !HasTerm(t, dict)
    ensures SimplifyWith(Some(t), dict) == t
  {
    NoTermPassesVerbatim(t, dict);
  }

  /**
   * `simplifyJargon` with a valid, inert table glosses every maximal word
   * that is a term ignoring case, as the first such entry's annotation, and
   * copies every other character.
   */
  lemma SimplifyAnnotatesWords(t: string, dict: seq<Entry>)
    requires AllValid(dict) && Inert(dict)
    requires t != "" && t != MedicineModel.NotAvailable
    ensures SimplifyWith(Some(t), dict) == AnnotateWords(t, dict)
  {
    ApplyAllIsAnnotateWords(t, dict);
  }
}
