/**
 How two layers agree that two questions are the same: whitespace and case do not count.
 Case folding is a parameter that maps one character at a time.
 */
module QueryText {

  /** What `str.split()` and `str.strip()` take for whitespace. */
  predicate IsSpace(c: char) {
    var n := c as int;
    || 0x09 <= n <= 0x0d || 0x1c <= n <= 0x20 || n == 0x85 || n == 0xa0 || n == 0x1680
    || 0x2000 <= n <= 0x200a || n == 0x2028 || n == 0x2029 || n == 0x202f || n == 0x205f || n == 0x3000
  }

  predicate Blank(text: string) {
    forall i :: 0 <= i < |text| ==> IsSpace(text[i])
  }

  predicate SpaceFree(text: string) {
    forall i :: 0 <= i < |text| ==> !IsSpace(text[i])
  }

  /** The length of the leading run of non-space characters. */
  function WordEnd(text: string): (n: nat)
    ensures n <= |text| && SpaceFree(text[..n]) && (n < |text| ==> IsSpace(text[n]))
  {
    if |text| == 0 || IsSpace(text[0]) then 0
    else
      var n := 1 + WordEnd(text[1..]);
      assert text[..n] == [text[0]] + text[1..][..n - 1];
      n
  }

  predicate IsWord(w: string) {
    w != "" && SpaceFree(w)
  }

  /** `text.split()` */
  function Words(text: string): (ws: seq<string>)
    ensures forall i :: 0 <= i < |ws| ==> IsWord(ws[i])
    ensures ws == [] <==> Blank(text)
    decreases |text|
  {
    if |text| == 0 then []
    else if IsSpace(text[0]) then
      assert text == [text[0]] + text[1..];
      Words(text[1..])
    else
      [text[..WordEnd(text)]] + Words(text[WordEnd(text)..])
  }

  /** `" ".join(ws)` */
  function Join(ws: seq<string>): string {
    if |ws| == 0 then ""
    else if |ws| == 1 then ws[0]
    else ws[0] + " " + Join(ws[1..])
  }

  /** Splitting undoes joining. */
  lemma {:induction false} WordsOfJoin(ws: seq<string>)
    requires forall i :: 0 <= i < |ws| ==> IsWord(ws[i])
    ensures Words(Join(ws)) == ws
  {
    if |ws| > 0 {
      var w, text := ws[0], Join(ws);
      var rest := if |ws| == 1 then "" else " " + Join(ws[1..]);
      assert text == w + rest;
      WordEndIs(w, rest);
      assert text[..|w|] == w && text[|w|..] == rest;
      if |ws| > 1 {
        WordsOfJoin(ws[1..]);
        assert rest[1..] == Join(ws[1..]);
      }
    }
  }

  lemma {:induction false} WordEndIs(w: string, rest: string)
    requires SpaceFree(w) && (rest == "" || IsSpace(rest[0]))
    ensures WordEnd(w + rest) == |w|
  {
    if |w| == 0 {
      assert w + rest == rest;
    } else {
      WordEndIs(w[1..], rest);
      assert (w + rest)[1..] == w[1..] + rest;
    }
  }

  /** `text.casefold()` */
  function Fold(text: string, fold: char -> string): string {
    if |text| == 0 then "" else fold(text[0]) + Fold(text[1..], fold)
  }

  /** Folding keeps the space and turns any other character into characters that are not spaces. */
  ghost predicate IsFolding(fold: char -> string) {
    fold(' ') == " " && forall c :: !IsSpace(c) ==> IsWord(fold(c))
  }

  /** `normalise_query` on text. */
  function Normalise(text: string, fold: char -> string): string {
    Fold(Join(Words(text)), fold)
  }

  function FoldAll(ws: seq<string>, fold: char -> string): (r: seq<string>)
    ensures |r| == |ws| && forall i :: 0 <= i < |ws| ==> r[i] == Fold(ws[i], fold)
  {
    if |ws| == 0 then [] else [Fold(ws[0], fold)] + FoldAll(ws[1..], fold)
  }

  /** Each character is folded by itself. */
  lemma FoldOne(c: char, text: string, fold: char -> string)
    ensures Fold([c] + text, fold) == fold(c) + Fold(text, fold) && Fold("", fold) == ""
  {
    assert ([c] + text)[1..] == text;
  }

  lemma {:induction false} FoldConcat(a: string, b: string, fold: char -> string)
    ensures Fold(a + b, fold) == Fold(a, fold) + Fold(b, fold)
  {
    hide Fold;
    if |a| == 0 {
      assert a + b == b && a == "";
      FoldOne(' ', "", fold);
      assert "" + Fold(b, fold) == Fold(b, fold);
    } else {
      FoldConcat(a[1..], b, fold);
      assert a + b == [a[0]] + (a[1..] + b) && a == [a[0]] + a[1..];
      FoldOne(a[0], a[1..] + b, fold);
      FoldOne(a[0], a[1..], fold);
      assert fold(a[0]) + (Fold(a[1..], fold) + Fold(b, fold)) == fold(a[0]) + Fold(a[1..], fold) + Fold(b, fold);
    }
  }

  lemma {:induction false} FoldedWord(w: string, fold: char -> string)
    requires IsFolding(fold) && SpaceFree(w)
    ensures SpaceFree(Fold(w, fold)) && (w != "" ==> IsWord(Fold(w, fold)))
  {
    if |w| > 0 {
      FoldedWord(w[1..], fold);
      assert IsWord(fold(w[0]));
    }
  }

  lemma {:induction false} FoldJoin(ws: seq<string>, fold: char -> string)
    requires IsFolding(fold)
    ensures Fold(Join(ws), fold) == Join(FoldAll(ws, fold))
  {
    if |ws| > 1 {
      FoldConcat(ws[0] + " ", Join(ws[1..]), fold);
      FoldConcat(ws[0], " ", fold);
      assert " "[1..] == "";
      assert Fold(" ", fold) == fold(' ') + Fold("", fold) == " ";
      FoldJoin(ws[1..], fold);
    }
  }

  /** The normal form is made of exactly the folded words. */
  lemma WordsOfNormalise(text: string, fold: char -> string)
    requires IsFolding(fold)
    ensures Words(Normalise(text, fold)) == FoldAll(Words(text), fold)
  {
    var ws := Words(text);
    FoldJoin(ws, fold);
    forall i | 0 <= i < |ws| ensures IsWord(FoldAll(ws, fold)[i]) {
      FoldedWord(ws[i], fold);
    }
    WordsOfJoin(FoldAll(ws, fold));
  }

  /** Two questions are the same exactly when their words agree up to case, whatever stands between them. */
  lemma SameQuestionIff(a: string, b: string, fold: char -> string)
    requires IsFolding(fold)
    ensures Normalise(a, fold) == Normalise(b, fold) <==> FoldAll(Words(a), fold) == FoldAll(Words(b), fold)
  {
    WordsOfNormalise(a, fold);
    WordsOfNormalise(b, fold);
    FoldJoin(Words(a), fold);
    FoldJoin(Words(b), fold);
  }

  /** The texts differ at most in the case of their characters. */
  predicate AlikeUpToCase(a: string, b: string, fold: char -> string) {
    |a| == |b| && forall i :: 0 <= i < |a| ==> fold(a[i]) == fold(b[i]) && (IsSpace(a[i]) <==> IsSpace(b[i]))
  }

  lemma {:induction false} FoldsAlike(a: string, b: string, fold: char -> string)
    requires AlikeUpToCase(a, b, fold)
    ensures Fold(a, fold) == Fold(b, fold) && WordEnd(a) == WordEnd(b)
  {
    hide IsSpace;
    if |a| > 0 {
      FoldsAlike(a[1..], b[1..], fold);
    }
  }

  lemma {:induction false} WordsAlike(a: string, b: string, fold: char -> string)
    requires AlikeUpToCase(a, b, fold)
    ensures FoldAll(Words(a), fold) == FoldAll(Words(b), fold)
    decreases |a|
  {
    hide IsSpace, Fold, Blank, SpaceFree, IsWord;
    if |a| > 0 {
      if IsSpace(a[0]) {
        WordsAlike(a[1..], b[1..], fold);
      } else {
        assert WordEnd(a) > 0;
        FoldsAlike(a, b, fold);
        hide WordEnd;
        var n := WordEnd(a);
        FoldsAlike(a[..n], b[..n], fold);
        WordsAlike(a[n..], b[n..], fold);
        assert Words(a) == [a[..n]] + Words(a[n..]) && Words(b) == [b[..n]] + Words(b[n..]);
      }
    }
  }

  /** Case does not matter: texts whose characters fold alike are the same question. */
  lemma CaseDoesNotMatter(a: string, b: string, fold: char -> string)
    requires IsFolding(fold) && AlikeUpToCase(a, b, fold)
    ensures Normalise(a, fold) == Normalise(b, fold)
  {
    WordsAlike(a, b, fold);
    SameQuestionIff(a, b, fold);
  }

  /** Only blank text normalises to nothing. */
  lemma BlankIff(text: string, fold: char -> string)
    requires IsFolding(fold)
    ensures Normalise(text, fold) == "" <==> Blank(text)
  {
  }
}
