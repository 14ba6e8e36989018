/** The article card: the author-avatar initials and the category badge colour. */
module ResourceCard {
  import opened Wrappers
  import opened Text
  import opened Seqs
  import opened Palette

  /** `word[0]`, where the first letter of an empty word contributes nothing to the join. */
  function FirstLetter(word: string): (r: string)
    ensures |r| <= 1
  {
    if |word| > 0 then [word[0]] else ""
  }

  /** `words.map(w => w[0]).join('')`. */
  function FirstLetters(words: seq<string>): string
    decreases |words|
  {
    if |words| == 0 then "" else FirstLetter(words[0]) + FirstLetters(words[1..])
  }

  /**
   * Reference definition of the word starts of `s`: every non-blank
   * character that begins the text (when `atStart`) or follows a blank.
   */
  function WordStarts(s: string, atStart: bool): string
    decreases |s|
  {
    if |s| == 0 then ""
    else if s[0] == ' ' then WordStarts(s[1..], true)
    else (if atStart then [s[0]] else "") + WordStarts(s[1..], false)
  }

  /** The first letters of the blank-separated words are exactly the word starts. */
  lemma {:induction false} FirstLettersAreWordStarts(s: string, atStart: bool)
    ensures FirstLetters(if atStart then Split(s, ' ') else Split(s, ' ')[1..]) == WordStarts(s, atStart)
    decreases |s|
  {
    if |s| > 0 {
      var rest := Split(s[1..], ' ');
      FirstLettersAreWordStarts(s[1..], true);
      FirstLettersAreWordStarts(s[1..], false);
      if s[0] == ' ' {
        assert Split(s, ' ') == [""] + rest;
        assert (Split(s, ' '))[1..] == rest;
      } else {
        var w := Split(s, ' ');
        assert w == [[s[0]] + rest[0]] + rest[1..];
        assert w[1..] == rest[1..];
      }
    }
  }

  /** Some word starts exist exactly when the text holds a non-blank character. */
  lemma {:induction false} WordStartsNonEmpty(s: string)
    ensures |WordStarts(s, true)| > 0 <==> exists i :: 0 <= i < |s| && s[i] != ' '
    decreases |s|
  {
    if |s| > 0 {
      WordStartsNonEmpty(s[1..]);
      if s[0] == ' ' {
        if exists i :: 0 <= i < |s| && s[i] != ' ' {
          var i :| 0 <= i < |s| && s[i] != ' ';
          assert s[1..][i - 1] == s[i];
        }
      }
    }
  }

  /**
   * `getAuthorInitials`: "A" for a missing or empty name, otherwise the
   * upper-cased first letters of the blank-separated words, at most two.
   */
  function AuthorInitials(authorName: Option<string>): (r: string)
    ensures authorName.None? || authorName.value == "" ==> r == "A"
    ensures authorName.Some? && authorName.value != "" ==>
              && r == Take(ToUpper(WordStarts(authorName.value, true)), 2)
              && (r == "" <==> forall i :: 0 <= i < |authorName.value| ==> authorName.value[i] == ' ')
    ensures |r| <= 2
  {
    if authorName.None? || authorName.value == "" then "A"
    else
      var name := authorName.value;
      FirstLettersAreWordStarts(name, true);
      WordStartsNonEmpty(name);
      Take(ToUpper(FirstLetters(Split(name, ' '))), 2)
  }

  /** `getCategoryColor`: decided on the lower-cased category; a missing one is grey. */
  function CategoryColor(category: Option<string>): (c: Color)
    ensures category.None? ==> c == SoftGray
    ensures category.Some? ==>
              && (c == Mint <==> ToLower(category.value) == "health" || ToLower(category.value) == "grooming")
              && (c == Mustard <==> ToLower(category.value) == "training")
              && (c == Lavender <==> ToLower(category.value) == "nutrition")
  {
    if category.None? then SoftGray
    else
      var key := ToLower(category.value);
      if key == "health" then Mint
      else if key == "training" then Mustard
      else if key == "nutrition" then Lavender
      else if key == "grooming" then Mint
      else SoftGray
  }

  /** Categories that differ only in letter case get the same colour. */
  lemma CategoryColorIgnoresCase(a: string, b: string)
    requires ToLower(a) == ToLower(b)
    ensures CategoryColor(Some(a)) == CategoryColor(Some(b))
  {
  }
}
