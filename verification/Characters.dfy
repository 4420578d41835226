/** The classes of characters, each against the list of what is in it. */
module Characters {
  import opened PromptSections
  import opened TagPatterns

  const LOWER: string := "abcdefghijklmnopqrstuvwxyz"
  const UPPER: string := "ABCDEFGHIJKLMNOPQRSTUVWXYZ"
  const DIGITS: string := "0123456789"

  lemma LowerAt(i: nat)
    requires i < |LOWER|
    ensures |LOWER| == 26 && LOWER[i] as int == 'a' as int + i
  {
  }

  lemma UpperAt(i: nat)
    requires i < |UPPER|
    ensures |UPPER| == 26 && UPPER[i] as int == 'A' as int + i
  {
  }

  lemma LowerLetters(c: char)
    ensures 'a' <= c <= 'z' <==> c in LOWER
  {
    if 'a' <= c <= 'z' {
      LowerAt(c as int - 'a' as int);
    } else if i :| 0 <= i < |LOWER| && LOWER[i] == c {
      LowerAt(i);
    }
  }

  lemma UpperLetters(c: char)
    ensures 'A' <= c <= 'Z' <==> c in UPPER
  {
    if 'A' <= c <= 'Z' {
      UpperAt(c as int - 'A' as int);
    } else if i :| 0 <= i < |UPPER| && UPPER[i] == c {
      UpperAt(i);
    }
  }

  lemma DecimalDigits(c: char)
    ensures '0' <= c <= '9' <==> c in DIGITS
  {
    if '0' <= c <= '9' {
      assert DIGITS[c as int - '0' as int] == c;
    }
  }

  lemma InFour(c: char, p: string, q: string, r: string, s: string)
    ensures c in p + q + r + s <==> c in p || c in q || c in r || c in s
  {
  }

  /** A language name may have letters and digits without accents, and five signs. */
  lemma AllowedCharacters(c: char)
    ensures IsAllowed(c) <==> c in LOWER + UPPER + DIGITS + "+#._-"
  {
    LowerLetters(c);
    UpperLetters(c);
    DecimalDigits(c);
    InFour(c, LOWER, UPPER, DIGITS, "+#._-");
  }

  /** A word boundary lies between one of these and any other character. */
  lemma WordCharacters(c: char)
    ensures IsWord(c) <==> c in LOWER + UPPER + DIGITS + "_"
  {
    LowerLetters(c);
    UpperLetters(c);
    DecimalDigits(c);
    InFour(c, LOWER, UPPER, DIGITS, "_");
  }

  lemma SpaceCharacters(c: char)
    ensures IsSpace(c) <==> c in "\t\n\U{000C}\r "
  {
  }

  /** A letter of a name is matched by itself, by its capital, and by the two other signs that Unicode folds into it. */
  lemma FoldsExactly(i: nat, c: char)
    requires i < |LOWER| == |UPPER|
    ensures Folds(c, LOWER[i]) <==>
            || c == LOWER[i] || c == UPPER[i]
            || (LOWER[i] == 's' && c == '\U{017F}') || (LOWER[i] == 'k' && c == '\U{212A}')
    ensures Folds(c, '_') <==> c == '_'
  {
    LowerAt(i);
    UpperAt(i);
  }

  /** Unicode's white space. */
  const WHITE_SPACE: string :=
    "\t\n\U{000B}\U{000C}\r \U{0085}\U{00A0}\U{1680}"
    + "\U{2000}\U{2001}\U{2002}\U{2003}\U{2004}\U{2005}\U{2006}\U{2007}\U{2008}\U{2009}\U{200A}"
    + "\U{2028}\U{2029}\U{202F}\U{205F}\U{3000}"

  lemma BlankCharacters(c: char)
    ensures IsBlank(c) <==> c in WHITE_SPACE
  {
  }
}
