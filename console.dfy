/**
 * The console loops of `aula6.py`, `aula7.py` and `aula8.py` stop on a sentinel word,
 * compared after `lower()` and without stripping. The loops themselves (reading a
 * line, printing the answer) are I/O and are not modelled; the sentinel tests are.
 */
module Console {
  import opened Text

  /** The words that end the `aula8.py` loop. */
  const EXIT_WORDS: seq<string> := ["sair", "end", "fim", "tchau", "bye"]

  /**
   * The test of the `aula6.py` and `aula7.py` loops: `user_input.lower() == "sair"`. It
   * holds on `sair` in any mix of cases, and on nothing else: no padding, no other word.
   */
  predicate EndsSession(line: string): (b: bool)
    ensures b <==> CaseVariant(line, "sair")
  {
    ToLowerIsWord(line, "sair");
    ToLower(line) == "sair"
  }

  /**
   * The test of the `aula8.py` loop: `user_input.lower() in (...)`. It holds on a case
   * variant of one of the five words, and on nothing else.
   */
  predicate EndsConversation(line: string): (b: bool)
    ensures b <==> exists k :: 0 <= k < |EXIT_WORDS| && CaseVariant(line, EXIT_WORDS[k])
  {
    LowerInExitWords(line);
    ToLower(line) in EXIT_WORDS
  }

  /** A word of lower-case ASCII letters. */
  predicate AsciiLowerWord(w: string) {
    forall i :: 0 <= i < |w| ==> 'a' <= w[i] <= 'z'
  }

  /** `line` spells `w` letter by letter, each letter in either case, and nothing else. */
  predicate CaseVariant(line: string, w: string) {
    |line| == |w| && forall i :: 0 <= i < |w| ==> line[i] == w[i] || line[i] as int == w[i] as int - 32
  }

  /** The only characters that `lower()` turns into an ASCII lower-case letter are that letter and its capital. */
  lemma LowerCharToLetter(c: char, x: char)
    requires 'a' <= x <= 'z'
    ensures LowerChar(c) == x <==> c == x || c as int == x as int - 32
  {
  }

  /** Lower-casing gives a lower-case ASCII word exactly on that word's case variants. */
  lemma {:induction false} ToLowerIsWord(line: string, w: string)
    requires AsciiLowerWord(w)
    ensures ToLower(line) == w <==> CaseVariant(line, w)
  {
    ToLowerAt(line);
    if CaseVariant(line, w) {
      forall i | 0 <= i < |w| ensures ToLower(line)[i] == w[i] {
        LowerCharToLetter(line[i], w[i]);
      }
    }
    if ToLower(line) == w {
      forall i | 0 <= i < |w| ensures line[i] == w[i] || line[i] as int == w[i] as int - 32 {
        LowerCharToLetter(line[i], w[i]);
      }
    }
  }

  /** A line lower-cases to one of the five words exactly when it is a case variant of one. */
  lemma {:induction false} LowerInExitWords(line: string)
    ensures ToLower(line) in EXIT_WORDS <==> exists k :: 0 <= k < |EXIT_WORDS| && CaseVariant(line, EXIT_WORDS[k])
  {
    forall k | 0 <= k < |EXIT_WORDS| ensures ToLower(line) == EXIT_WORDS[k] <==> CaseVariant(line, EXIT_WORDS[k]) {
      ToLowerIsWord(line, EXIT_WORDS[k]);
    }
  }

  /** Whatever ends the aula6/aula7 loop also ends the aula8 loop. */
  lemma EndsSessionEndsConversation(line: string)
    ensures EndsSession(line) ==> EndsConversation(line)
  {
  }

  /** Capitals do not matter: mixed-case sentinels end both loops. */
  lemma SentinelCapitals()
    ensures EndsSession("SaIr") && EndsConversation("TCHAU")
  {
    assert CaseVariant("TCHAU", EXIT_WORDS[3]);
  }

  /** Surrounding blanks are not stripped: a padded sentinel ends neither loop. */
  lemma SentinelPadding()
    ensures !EndsSession("sair ") && !EndsConversation(" bye")
  {
    forall k | 0 <= k < |EXIT_WORDS| ensures !CaseVariant(" bye", EXIT_WORDS[k]) {
      assert " bye"[0] == ' ';
    }
  }
}
