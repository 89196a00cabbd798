/**
 * The about paragraph: the description is split on single spaces, each piece
 * becomes one animated span shown verbatim, and a piece is highlighted when its
 * punctuation-stripped form is one of a fixed list of words.
 */
module About {

  /** The words the paragraph highlights, compared case-sensitively. */
  const HighlightWords: seq<string> := ["Solidity", "Next.js", "Stripe", "Zapier", "OpenAI", "skills"]

  /** The delay between the animations of consecutive pieces, in milliseconds. */
  const DelayStepMs: nat := 100

  /** One span of the paragraph. */
  datatype Span = Span(text: string, highlighted: bool, delayMs: nat)

  // ---------------------------------------------------------------------
  // Splitting

  /** `s.split(' ')`: the pieces between single spaces, in order; consecutive spaces give empty pieces. */
  function Split(s: string): (pieces: seq<string>)
    ensures |pieces| >= 1
  {
    if s == [] then [""]
    else if s[0] == ' ' then [""] + Split(s[1..])
    else
      var rest := Split(s[1..]);
      [[s[0]] + rest[0]] + rest[1..]
  }

  /** The pieces joined back with single spaces. */
  function Join(pieces: seq<string>): string
    requires |pieces| >= 1
  {
    if |pieces| == 1 then pieces[0] else pieces[0] + " " + Join(pieces[1..])
  }

  /** The number of spaces in `s`. */
  function SpaceCount(s: string): nat
  {
    if s == [] then 0 else (if s[0] == ' ' then 1 else 0) + SpaceCount(s[1..])
  }

  /** Splitting loses nothing: joining the pieces with spaces gives the description back. */
  lemma {:induction false} JoinSplit(s: string)
    ensures Join(Split(s)) == s
  {
    if s != [] {
      JoinSplit(s[1..]);
      var rest := Split(s[1..]);
      if s[0] == ' ' {
        assert ([""] + rest)[1..] == rest;
        assert s == [' '] + s[1..];
      } else {
        var pieces := [[s[0]] + rest[0]] + rest[1..];
        if |rest| == 1 {
          assert s == [s[0]] + s[1..];
        } else {
          assert pieces[1..] == rest[1..];
          assert Join(rest) == rest[0] + " " + Join(rest[1..]);
          assert s == [s[0]] + s[1..];
        }
      }
    }
  }

  /** No piece contains a space, and there is one piece more than there are spaces. */
  lemma {:induction false} SplitPieces(s: string)
    ensures |Split(s)| == SpaceCount(s) + 1
    ensures forall i :: 0 <= i < |Split(s)| ==> ' ' !in Split(s)[i]
  {
    if s != [] {
      SplitPieces(s[1..]);
      var rest := Split(s[1..]);
      if s[0] == ' ' {
        assert forall i :: 1 <= i < |Split(s)| ==> Split(s)[i] == rest[i - 1];
      } else {
        assert forall i :: 1 <= i < |Split(s)| ==> Split(s)[i] == rest[i];
      }
    }
  }

  // ---------------------------------------------------------------------
  // Matching

  /** `word.replace(/[.,]/g, "")`: the word with every '.' and ',' removed. */
  function CleanWord(w: string): string
  {
    if w == [] then []
    else (if w[0] == '.' || w[0] == ',' then [] else [w[0]]) + CleanWord(w[1..])
  }

  /** The cleaned word has no '.' or ',', and a word without them is left unchanged. */
  lemma {:induction false} CleanWordSpec(w: string)
    ensures '.' !in CleanWord(w) && ',' !in CleanWord(w)
    ensures (forall i :: 0 <= i < |w| ==> w[i] != '.' && w[i] != ',') ==> CleanWord(w) == w
  {
    if w != [] {
      CleanWordSpec(w[1..]);
      if forall i :: 0 <= i < |w| ==> w[i] != '.' && w[i] != ',' {
        assert forall i :: 0 <= i < |w[1..]| ==> w[1..][i] == w[i + 1];
        assert w == [w[0]] + w[1..];
      }
    }
  }

  /** Cleaning distributes over concatenation. */
  lemma {:induction false} CleanWordAppend(a: string, b: string)
    ensures CleanWord(a + b) == CleanWord(a) + CleanWord(b)
  {
    if a != [] {
      CleanWordAppend(a[1..], b);
      assert (a + b)[1..] == a[1..] + b;
    } else {
      assert a + b == b;
    }
  }

  /** Cleaning twice is cleaning once. */
  lemma CleanWordIdempotent(w: string)
    ensures CleanWord(CleanWord(w)) == CleanWord(w)
  {
    CleanWordSpec(w);
    CleanWordSpec(CleanWord(w));
  }

  /** `highlightWords.includes(cleanWord)`, as written. */
  predicate IsHighlighted(piece: string)
  {
    CleanWord(piece) in HighlightWords
  }

  /** As written, the list entry "Next.js" can never cause a highlight: a cleaned piece has no '.'. */
  lemma NextJsNeverHighlighted(piece: string)
    ensures CleanWord(piece) != "Next.js"
  {
    CleanWordSpec(piece);
    assert "Next.js"[4] == '.';
  }

  /**
   * As written, no piece beginning with 'N' is highlighted, so neither "Next.js" nor
   * "Next.js," is, although the list names Next.js.
   */
  lemma PiecesStartingWithNNotHighlighted(piece: string)
    requires |piece| > 0 && piece[0] == 'N'
    ensures !IsHighlighted(piece)
  {
    var c := CleanWord(piece);
    assert c == [piece[0]] + CleanWord(piece[1..]);
    NextJsNeverHighlighted(piece);
    forall k | 0 <= k < |HighlightWords| ensures HighlightWords[k] != c {
      if k != 1 {
        assert HighlightWords[k][0] != 'N';
      }
    }
  }

  /** The list entries cleaned the way the pieces are. */
  function CleanedHighlightWords(): (r: seq<string>)
    ensures |r| == |HighlightWords|
    ensures forall i :: 0 <= i < |r| ==> r[i] == CleanWord(HighlightWords[i])
  {
    seq(|HighlightWords|, i requires 0 <= i < |HighlightWords| => CleanWord(HighlightWords[i]))
  }

  /** The evidently intended test: the cleaned piece equals a cleaned list entry. */
  predicate IsHighlightedIntended(piece: string)
  {
    CleanWord(piece) in CleanedHighlightWords()
  }

  /** Under the intended test every list entry, followed by any run of '.' and ',', is highlighted. */
  lemma HighlightWordsAreHighlighted(k: nat, punctuation: string)
    requires k < |HighlightWords|
    requires forall i :: 0 <= i < |punctuation| ==> punctuation[i] == '.' || punctuation[i] == ','
    ensures IsHighlightedIntended(HighlightWords[k] + punctuation)
  {
    CleanWordAppend(HighlightWords[k], punctuation);
    CleanWordOfPunctuation(punctuation);
    assert CleanWord(HighlightWords[k] + punctuation) == CleanedHighlightWords()[k];
  }

  /** A run of '.' and ',' cleans to nothing. */
  lemma {:induction false} CleanWordOfPunctuation(p: string)
    requires forall i :: 0 <= i < |p| ==> p[i] == '.' || p[i] == ','
    ensures CleanWord(p) == []
  {
    if p != [] {
      assert forall i :: 0 <= i < |p[1..]| ==> p[1..][i] == p[i + 1];
      CleanWordOfPunctuation(p[1..]);
    }
  }

  /** The intended test highlights every piece the written one does. */
  lemma IntendedExtendsAsWritten(piece: string)
    requires IsHighlighted(piece)
    ensures IsHighlightedIntended(piece)
  {
    var k :| 0 <= k < |HighlightWords| && HighlightWords[k] == CleanWord(piece);
    CleanWordIdempotent(piece);
    assert CleanedHighlightWords()[k] == CleanWord(piece);
  }

  // ---------------------------------------------------------------------
  // The paragraph

  /**
   * One span per piece, in order, showing the piece verbatim, highlighted by the
   * test as written, with an animation delay of 100 ms per position.
   */
  function Spans(description: string): (spans: seq<Span>)
    ensures |spans| == |Split(description)|
    ensures forall i :: 0 <= i < |spans| ==> spans[i].text == Split(description)[i]
    ensures forall i :: 0 <= i < |spans| ==> (spans[i].highlighted <==> IsHighlighted(spans[i].text))
    ensures forall i :: 0 <= i < |spans| ==> spans[i].delayMs == i * DelayStepMs
  {
    var pieces := Split(description);
    seq(|pieces|, i requires 0 <= i < |pieces| =>
      Span(pieces[i], IsHighlighted(pieces[i]), i * DelayStepMs))
  }

  /** The paragraph as evidently intended: the same spans, highlighted by the corrected test. */
  function SpansIntended(description: string): (spans: seq<Span>)
    ensures |spans| == |Spans(description)|
    ensures forall i :: 0 <= i < |spans| ==>
      spans[i].text == Spans(description)[i].text && spans[i].delayMs == Spans(description)[i].delayMs
    ensures forall i :: 0 <= i < |spans| ==> (spans[i].highlighted <==> IsHighlightedIntended(spans[i].text))
  {
    var pieces := Split(description);
    seq(|pieces|, i requires 0 <= i < |pieces| =>
      Span(pieces[i], IsHighlightedIntended(pieces[i]), i * DelayStepMs))
  }

  /** The corrected paragraph highlights every span the written one does, and the span `Next.js` besides. */
  lemma SpansIntendedExtendsSpans(description: string, i: nat)
    requires i < |Spans(description)|
    ensures Spans(description)[i].highlighted ==> SpansIntended(description)[i].highlighted
    ensures Spans(description)[i].text == "Next.js" ==>
      !Spans(description)[i].highlighted && SpansIntended(description)[i].highlighted
  {
    var piece := Spans(description)[i].text;
    if IsHighlighted(piece) {
      IntendedExtendsAsWritten(piece);
    }
    if piece == "Next.js" {
      PiecesStartingWithNNotHighlighted(piece);
      HighlightWordsAreHighlighted(1, "");
      assert HighlightWords[1] + "" == piece;
    }
  }

  /** The texts of the spans, in order. */
  function Texts(spans: seq<Span>): (texts: seq<string>)
    ensures |texts| == |spans| && forall i :: 0 <= i < |spans| ==> texts[i] == spans[i].text
  {
    if spans == [] then [] else [spans[0].text] + Texts(spans[1..])
  }

  /** The spans' texts joined with spaces give the description back. */
  lemma SpansRebuildDescription(description: string)
    ensures |Texts(Spans(description))| >= 1 && Join(Texts(Spans(description))) == description
  {
    assert Texts(Spans(description)) == Split(description);
    JoinSplit(description);
  }

  /** Later pieces start their animation strictly later. */
  lemma DelaysIncrease(description: string, i: nat, j: nat)
    requires i < j < |Spans(description)|
    ensures Spans(description)[i].delayMs < Spans(description)[j].delayMs
  {
    assert j * DelayStepMs == i * DelayStepMs + (j - i) * DelayStepMs;
  }
}
