/** The feedback shown after a pick: every choice item is compared with the picked
    text and with the correct answer and marked accordingly. */
module Marking {

  /** What a choice item shows after a pick: the "correct" class, the "wrong"
      class, or neither. */
  datatype Mark = Plain | Correct | Wrong

  /** The marking rule for one item with text `text`, when `picked` was chosen and
      `answer` is right. The two rules of the page are stated separately; that no
      item gets both marks is built into `Mark`. */
  function Classify(text: string, picked: string, answer: string): (m: Mark)
    ensures m == Correct <==> text == answer
    ensures m == Wrong <==> text == picked && picked != answer
  {
    if text == answer then Correct
    else if text == picked then Wrong
    else Plain
  }

  /** Freshly rendered items carry no mark. */
  function Unmarked(n: nat): seq<Mark>
  {
    seq(n, _ => Plain)
  }

  /** The `forEach` over the rendered items in `selectedAnswer`: marks each item.
      The picked item is always highlighted one way or the other, the correct
      answer is highlighted whenever it is on screen, and a correct pick shows no
      wrong mark. */
  method MarkChoices(texts: seq<string>, picked: string, answer: string) returns (marks: seq<Mark>)
    ensures |marks| == |texts|
    ensures forall i :: 0 <= i < |texts| ==> marks[i] == Classify(texts[i], picked, answer)
    ensures forall i :: 0 <= i < |texts| && texts[i] == picked ==> marks[i] != Plain
    ensures answer in texts ==> Correct in marks
    ensures picked == answer ==> Wrong !in marks
  {
    marks := [];
    var i := 0;
    while i < |texts|
      invariant 0 <= i <= |texts|
      invariant |marks| == i
      invariant forall j :: 0 <= j < i ==> marks[j] == Classify(texts[j], picked, answer)
    {
      marks := marks + [Classify(texts[i], picked, answer)];
      i := i + 1;
    }
    if answer in texts {
      var j :| 0 <= j < |texts| && texts[j] == answer;
      assert marks[j] == Correct;
    }
  }
}
