/** How section texts become one prompt: empty ones are skipped, the rest joined by blank lines. */
module Compose {
  const BLANK_LINE := "\n\n"

  function Join(parts: seq<string>): string {
    if parts == [] then ""
    else if |parts| == 1 then parts[0]
    else Join(parts[..|parts| - 1]) + BLANK_LINE + parts[|parts| - 1]
  }

  function NonEmpty(texts: seq<string>): seq<string> {
    if texts == [] then []
    else
      var front := NonEmpty(texts[..|texts| - 1]);
      if texts[|texts| - 1] != "" then front + [texts[|texts| - 1]] else front
  }

  function Composed(texts: seq<string>): string {
    Join(NonEmpty(texts))
  }

  // ---------------------------------------------------------------------------
  // The composed text tells the order of its parts, for some texts.

  /** The text of each name. */
  function Worded(names: seq<string>, text: string -> string): seq<string> {
    seq(|names|, i requires 0 <= i < |names| => text(names[i]))
  }

  /** With one character a part, the parts stand three characters apart. */
  lemma {:induction false} JoinOfLetters(parts: seq<string>)
    requires forall i :: 0 <= i < |parts| ==> |parts[i]| == 1
    ensures |Join(parts)| == if parts == [] then 0 else 3 * |parts| - 2
    ensures forall i :: 0 <= i < |parts| ==> Join(parts)[3 * i] == parts[i][0]
    decreases |parts|
  {
    if |parts| <= 1 {
    } else {
      var front := parts[..|parts| - 1];
      JoinOfLetters(front);
      assert forall i :: 0 <= i < |front| ==> Join(parts)[3 * i] == Join(front)[3 * i];
    }
  }

  lemma {:induction false} NonEmptyKeepsAll(texts: seq<string>)
    requires forall i :: 0 <= i < |texts| ==> texts[i] != ""
    ensures NonEmpty(texts) == texts
    decreases |texts|
  {
    if texts == [] {
    } else {
      NonEmptyKeepsAll(texts[..|texts| - 1]);
      assert texts == texts[..|texts| - 1] + [texts[|texts| - 1]];
    }
  }

  function Letter(special: string): string -> string {
    (n: string) => if n == special then "a" else "b"
  }

  lemma ComposedOfLetters(names: seq<string>, special: string)
    ensures var s := Composed(Worded(names, Letter(special)));
      && |s| == (if names == [] then 0 else 3 * |names| - 2)
      && forall i :: 0 <= i < |names| ==> s[3 * i] == if names[i] == special then 'a' else 'b'
  {
    var texts := Worded(names, Letter(special));
    NonEmptyKeepsAll(texts);
    JoinOfLetters(texts);
  }

  /** No name is left without text. */
  ghost predicate Wordy(text: string -> string) {
    forall n :: text(n) != ""
  }

  /** Two lists of names are the same exactly when they compose the same text, whatever texts the names have. */
  lemma SameNamesIffSameTexts(a: seq<string>, b: seq<string>)
    ensures a == b <==> forall text :: Wordy(text) ==> Composed(Worded(a, text)) == Composed(Worded(b, text))
  {
    if a != b {
      var special := "";
      if k :| 0 <= k < |a| && k < |b| && a[k] != b[k] {
        special := a[k];
      }
      ComposedOfLetters(a, special);
      ComposedOfLetters(b, special);
      assert Wordy(Letter(special));
      assert Composed(Worded(a, Letter(special))) != Composed(Worded(b, Letter(special)));
    }
  }
}
