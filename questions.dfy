/** Turning the trivia provider's raw results into quiz questions: the body of
    `data.results.map(...)` in `fetchQuestions`.

    Two things the page delegates to the browser are parameters here:
    - `decode`, the HTML-entity decoding done through a scratch `textarea`, is
      any total function on strings (the same one for every text);
    - the reordering done by `sort` with a random comparator is given as its
      result, which is only required to be a rearrangement of its input. */
module Questions {

  /** One entry of the provider's `results` array, texts still entity-encoded. */
  datatype RawResult = RawResult(question: string, correctAnswer: string, incorrectAnswers: seq<string>)

  /** A question as the page keeps it: decoded prompt, decoded choices in display
      order, decoded correct answer. */
  datatype Question = Question(text: string, choices: seq<string>, answer: string)

  /** The choice list before reordering: the incorrect answers followed by the correct one. */
  function AllChoices(raw: RawResult): seq<string>
  {
    raw.incorrectAnswers + [raw.correctAnswer]
  }

  /** `shuffled` holds exactly the items of `items`, each as often, in some order. */
  predicate IsReordering(shuffled: seq<string>, items: seq<string>)
  {
    multiset(shuffled) == multiset(items)
  }

  /** Every result comes with a reordering of its own choice list. */
  predicate Reorderings(raws: seq<RawResult>, shuffles: seq<seq<string>>)
  {
    |shuffles| == |raws| &&
    forall i :: 0 <= i < |raws| ==> IsReordering(shuffles[i], AllChoices(raws[i]))
  }

  /** A question the user can answer correctly: its answer is one of its choices. */
  predicate WellFormed(q: Question)
  {
    q.answer in q.choices
  }

  /** Every question of a list is answerable. */
  predicate AllWellFormed(qs: seq<Question>)
  {
    forall i :: 0 <= i < |qs| ==> WellFormed(qs[i])
  }

  /** Decodes every text of a list, keeping positions. */
  function DecodeAll(decode: string -> string, texts: seq<string>): seq<string>
  {
    seq(|texts|, i requires 0 <= i < |texts| => decode(texts[i]))
  }

  /** Decoding a concatenation decodes each part. */
  lemma DecodeAllAppend(decode: string -> string, a: seq<string>, b: seq<string>)
    ensures DecodeAll(decode, a + b) == DecodeAll(decode, a) + DecodeAll(decode, b)
  {
  }

  /** Decoding after reordering gives a reordering of the decoded list: it does not
      matter that the page sorts the raw texts and decodes them afterwards. */
  lemma {:induction false} DecodeAllKeepsReordering(decode: string -> string, a: seq<string>, b: seq<string>)
    requires IsReordering(a, b)
    ensures IsReordering(DecodeAll(decode, a), DecodeAll(decode, b))
    decreases |a|
  {
    if a == [] {
      assert |b| == |multiset(b)| == 0;
    } else {
      var x := a[0];
      assert x in multiset(b);
      var k :| 0 <= k < |b| && b[k] == x;
      var rest := b[..k] + b[k + 1..];
      assert b == b[..k] + [x] + b[k + 1..];
      assert a == [x] + a[1..];
      assert multiset(b) == multiset(b[..k]) + multiset{x} + multiset(b[k + 1..]);
      assert multiset(rest) == multiset(b[..k]) + multiset(b[k + 1..]);
      assert multiset(a) == multiset{x} + multiset(a[1..]);
      assert multiset(a[1..]) == multiset(a) - multiset{x};
      assert multiset(rest) == multiset(b) - multiset{x};
      DecodeAllKeepsReordering(decode, a[1..], rest);
      DecodeAllAppend(decode, [x], a[1..]);
      DecodeAllAppend(decode, b[..k] + [x], b[k + 1..]);
      DecodeAllAppend(decode, b[..k], [x]);
      DecodeAllAppend(decode, b[..k], b[k + 1..]);
    }
  }

  /** The transform of one result (the arrow function passed to `map`): the prompt
      is decoded, the choice list `incorrect ++ [correct]` is reordered and then
      decoded item by item, and the answer is the decoded correct answer. */
  function Normalise(decode: string -> string, raw: RawResult, shuffled: seq<string>): (q: Question)
    requires IsReordering(shuffled, AllChoices(raw))
    ensures q.text == decode(raw.question)
    ensures q.answer == decode(raw.correctAnswer)
    ensures |q.choices| == |raw.incorrectAnswers| + 1
    ensures IsReordering(q.choices, DecodeAll(decode, AllChoices(raw)))
    ensures WellFormed(q)
  {
    DecodeAllKeepsReordering(decode, shuffled, AllChoices(raw));
    var choices := DecodeAll(decode, shuffled);
    var all := DecodeAll(decode, AllChoices(raw));
    assert all[|all| - 1] == decode(raw.correctAnswer);
    assert decode(raw.correctAnswer) in multiset(choices);
    Question(decode(raw.question), choices, decode(raw.correctAnswer))
  }

  /** `data.results.map(...)`: one question per result, each one answerable. */
  function NormaliseAll(decode: string -> string, raws: seq<RawResult>, shuffles: seq<seq<string>>): (qs: seq<Question>)
    requires Reorderings(raws, shuffles)
    ensures |qs| == |raws|
    ensures AllWellFormed(qs)
  {
    if raws == [] then []
    else
      RestReorderings(raws, shuffles);
      [Normalise(decode, raws[0], shuffles[0])] + NormaliseAll(decode, raws[1..], shuffles[1..])
  }

  /** Dropping the first result keeps results and reorderings paired. */
  lemma RestReorderings(raws: seq<RawResult>, shuffles: seq<seq<string>>)
    requires Reorderings(raws, shuffles) && raws != []
    ensures Reorderings(raws[1..], shuffles[1..])
  {
  }

  /** The provider's order is kept: question `i` is the transform of result `i`. */
  lemma {:induction false} NormaliseAllAt(decode: string -> string, raws: seq<RawResult>, shuffles: seq<seq<string>>, i: nat)
    requires Reorderings(raws, shuffles) && i < |raws|
    ensures NormaliseAll(decode, raws, shuffles)[i] == Normalise(decode, raws[i], shuffles[i])
  {
    if i > 0 {
      RestReorderings(raws, shuffles);
      NormaliseAllAt(decode, raws[1..], shuffles[1..], i - 1);
    }
  }
}
