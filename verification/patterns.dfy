/**
  Hand-written matchers for the three regular expressions of the rule tables:

    cnpj      /[0-9]{2}.[0-9]{3}.[0-9]{3}\/[0-9]{4}-[0-9]{2}/            unanchored
    telefone  /^\([1-9]{2}\) (?:[2-8]|9[1-9])[0-9]{3}\-[0-9]{4}$/       anchored
    cep       /[0-9]{5}-[0-9]{3}/                                        unanchored

  Each regex (or each branch of its alternation) has a fixed width, so it is
  written as a template: a sequence of single-character tokens. An anchored
  regex must match the whole string; an unanchored one (JavaScript's
  `RegExp.prototype.test`) must match some substring.
*/
module Patterns {

  /** One character position of a fixed-width pattern. */
  datatype Token =
    | Digit                      // [0-9]
    | Range(lo: char, hi: char)  // [lo-hi]
    | Lit(c: char)               // the character itself
    | Wild                       // `.` without the `s` flag

  predicate IsDigit(c: char) {
    '0' <= c <= '9'
  }

  /** The characters a JavaScript `.` refuses to match (no `s` flag). */
  predicate IsLineTerminator(c: char) {
    c == '\n' || c == '\r' || c == '\U{2028}' || c == '\U{2029}'
  }

  /**
    What a JavaScript `.` (no `s` and no `u` flag) accepts at one position.
    It reads one UTF-16 code unit, so a character outside the Basic
    Multilingual Plane, two code units long, leaves its low surrogate for the
    next token; every token after a `.` here wants an ASCII character, so
    such a character never takes part in a match.
  */
  predicate DotMatches(c: char) {
    !IsLineTerminator(c) && c <= '\U{FFFF}'
  }

  predicate TokenMatches(t: Token, c: char) {
    match t
    case Digit => IsDigit(c)
    case Range(lo, hi) => lo <= c <= hi
    case Lit(l) => c == l
    case Wild => DotMatches(c)
  }

  /** The template `tpl` matches the characters of `s` starting at `at`. */
  predicate MatchAt(tpl: seq<Token>, s: string, at: nat) {
    at + |tpl| <= |s| && forall k :: 0 <= k < |tpl| ==> TokenMatches(tpl[k], s[at + k])
  }

  /**
    Left-to-right search for a match starting at `from` or later: the
    behaviour of `test` on a regex with neither `^` nor `$`.
  */
  function FindFrom(tpl: seq<Token>, s: string, from: nat): (r: bool)
    decreases |s| - from
    ensures r <==> exists j :: from <= j && MatchAt(tpl, s, j)
  {
    if from + |tpl| > |s| then false
    else MatchAt(tpl, s, from) || FindFrom(tpl, s, from + 1)
  }

  /** Unanchored match: some substring of `s` matches `tpl`. */
  predicate Occurs(tpl: seq<Token>, s: string) {
    FindFrom(tpl, s, 0)
  }

  /** Anchored match (`^…$`): the whole of `s` matches `tpl`. */
  predicate Whole(tpl: seq<Token>, s: string) {
    |s| == |tpl| && MatchAt(tpl, s, 0)
  }

  const CnpjTemplate: seq<Token> :=
    [Digit, Digit, Wild, Digit, Digit, Digit, Wild, Digit, Digit, Digit,
     Lit('/'), Digit, Digit, Digit, Digit, Lit('-'), Digit, Digit]

  const CepTemplate: seq<Token> :=
    [Digit, Digit, Digit, Digit, Digit, Lit('-'), Digit, Digit, Digit]

  /** First branch of the telefone alternation: `[2-8]`, a landline. */
  const LandlineTemplate: seq<Token> :=
    [Lit('('), Range('1', '9'), Range('1', '9'), Lit(')'), Lit(' '),
     Range('2', '8'), Digit, Digit, Digit, Lit('-'), Digit, Digit, Digit, Digit]

  /** Second branch of the telefone alternation: `9[1-9]`, a mobile number. */
  const MobileTemplate: seq<Token> :=
    [Lit('('), Range('1', '9'), Range('1', '9'), Lit(')'), Lit(' '),
     Lit('9'), Range('1', '9'), Digit, Digit, Digit, Lit('-'), Digit, Digit, Digit, Digit]

  predicate CnpjMatches(s: string) {
    Occurs(CnpjTemplate, s)
  }

  predicate CepMatches(s: string) {
    Occurs(CepTemplate, s)
  }

  predicate TelefoneMatches(s: string) {
    Whole(LandlineTemplate, s) || Whole(MobileTemplate, s)
  }

  /** Reference reading of the cnpj regex at one position, character by character. */
  ghost predicate CnpjAt(s: string, j: nat) {
    && j + 18 <= |s|
    && IsDigit(s[j]) && IsDigit(s[j + 1])
    && !IsLineTerminator(s[j + 2]) && s[j + 2] <= '\U{FFFF}'
    && IsDigit(s[j + 3]) && IsDigit(s[j + 4]) && IsDigit(s[j + 5])
    && !IsLineTerminator(s[j + 6]) && s[j + 6] <= '\U{FFFF}'
    && IsDigit(s[j + 7]) && IsDigit(s[j + 8]) && IsDigit(s[j + 9])
    && s[j + 10] == '/'
    && IsDigit(s[j + 11]) && IsDigit(s[j + 12]) && IsDigit(s[j + 13]) && IsDigit(s[j + 14])
    && s[j + 15] == '-'
    && IsDigit(s[j + 16]) && IsDigit(s[j + 17])
  }

  /** Reference reading of the cep regex at one position. */
  ghost predicate CepAt(s: string, j: nat) {
    && j + 9 <= |s|
    && (forall k :: j <= k < j + 5 ==> IsDigit(s[k]))
    && s[j + 5] == '-'
    && (forall k :: j + 6 <= k < j + 9 ==> IsDigit(s[k]))
  }

  /**
    Reference reading of the telefone regex: `(`, two digits 1-9, `) `, then
    either one digit 2-8 (14 characters in all) or `9` and a digit 1-9 (15
    characters), then three digits, `-` and four digits, with nothing before
    or after.
  */
  ghost predicate TelefoneShape(s: string) {
    && (|s| == 14 || |s| == 15)
    && s[0] == '(' && '1' <= s[1] <= '9' && '1' <= s[2] <= '9' && s[3] == ')' && s[4] == ' '
    && (if |s| == 14 then '2' <= s[5] <= '8' else s[5] == '9' && '1' <= s[6] <= '9')
    && (forall k :: |s| - 8 <= k < |s| - 5 ==> IsDigit(s[k]))
    && s[|s| - 5] == '-'
    && (forall k :: |s| - 4 <= k < |s| ==> IsDigit(s[k]))
  }

  /** Every position of a match satisfies its token. */
  lemma MatchAtEach(tpl: seq<Token>, s: string, j: nat, k: nat)
    requires MatchAt(tpl, s, j) && k < |tpl|
    ensures TokenMatches(tpl[k], s[j + k])
  {
  }

  lemma CnpjTemplateAt(s: string, j: nat)
    ensures MatchAt(CnpjTemplate, s, j) <==> CnpjAt(s, j)
  {
    var t := CnpjTemplate;
    if MatchAt(t, s, j) {
      MatchAtEach(t, s, j, 0); MatchAtEach(t, s, j, 1); MatchAtEach(t, s, j, 2);
      MatchAtEach(t, s, j, 3); MatchAtEach(t, s, j, 4); MatchAtEach(t, s, j, 5);
      MatchAtEach(t, s, j, 6); MatchAtEach(t, s, j, 7); MatchAtEach(t, s, j, 8);
      MatchAtEach(t, s, j, 9); MatchAtEach(t, s, j, 10); MatchAtEach(t, s, j, 11);
      MatchAtEach(t, s, j, 12); MatchAtEach(t, s, j, 13); MatchAtEach(t, s, j, 14);
      MatchAtEach(t, s, j, 15); MatchAtEach(t, s, j, 16); MatchAtEach(t, s, j, 17);
    }
    if CnpjAt(s, j) {
      forall k | 0 <= k < 18
        ensures TokenMatches(t[k], s[j + k])
      {
        if k == 2 || k == 6 {
          assert t[k] == Wild;
        } else if k == 10 {
          assert t[k] == Lit('/');
        } else if k == 15 {
          assert t[k] == Lit('-');
        } else {
          assert t[k] == Digit;
        }
      }
    }
  }

  /** The cnpj rule accepts exactly the strings that contain a cnpj-shaped run of 18 characters. */
  lemma CnpjMatchesIff(s: string)
    ensures CnpjMatches(s) <==> exists j :: CnpjAt(s, j)
  {
    if CnpjMatches(s) {
      var j :| MatchAt(CnpjTemplate, s, j);
      CnpjTemplateAt(s, j);
    }
    if j :| CnpjAt(s, j) {
      CnpjTemplateAt(s, j);
    }
  }

  lemma CepTemplateAt(s: string, j: nat)
    ensures MatchAt(CepTemplate, s, j) <==> CepAt(s, j)
  {
    var t := CepTemplate;
    if MatchAt(t, s, j) {
      forall k | j <= k < j + 9
        ensures k != j + 5 ==> IsDigit(s[k])
        ensures k == j + 5 ==> s[k] == '-'
      {
        MatchAtEach(t, s, j, k - j);
      }
    }
    if CepAt(s, j) {
      forall k | 0 <= k < 9
        ensures TokenMatches(t[k], s[j + k])
      {
        if k == 5 {
          assert t[k] == Lit('-');
        } else {
          assert t[k] == Digit;
        }
      }
    }
  }

  /** The cep rule accepts exactly the strings that contain `NNNNN-NNN` somewhere. */
  lemma CepMatchesIff(s: string)
    ensures CepMatches(s) <==> exists j :: CepAt(s, j)
  {
    if CepMatches(s) {
      var j :| MatchAt(CepTemplate, s, j);
      CepTemplateAt(s, j);
    }
    if j :| CepAt(s, j) {
      CepTemplateAt(s, j);
    }
  }

  lemma LandlineIff(s: string)
    requires |s| == 14
    ensures Whole(LandlineTemplate, s) <==> TelefoneShape(s)
  {
    var t := LandlineTemplate;
    if Whole(t, s) {
      forall k | 0 <= k < 14
        ensures k == 0 ==> s[k] == '('
        ensures (k == 1 || k == 2) ==> '1' <= s[k] <= '9'
        ensures k == 3 ==> s[k] == ')'
        ensures k == 4 ==> s[k] == ' '
        ensures k == 5 ==> '2' <= s[k] <= '8'
        ensures (6 <= k < 9 || 10 <= k) ==> IsDigit(s[k])
        ensures k == 9 ==> s[k] == '-'
      {
        MatchAtEach(t, s, 0, k);
      }
    }
    if TelefoneShape(s) {
      forall k | 0 <= k < 14
        ensures TokenMatches(t[k], s[k])
      {
      }
    }
  }

  lemma MobileIff(s: string)
    requires |s| == 15
    ensures Whole(MobileTemplate, s) <==> TelefoneShape(s)
  {
    var t := MobileTemplate;
    if Whole(t, s) {
      forall k | 0 <= k < 15
        ensures k == 0 ==> s[k] == '('
        ensures (k == 1 || k == 2 || k == 6) ==> '1' <= s[k] <= '9'
        ensures k == 3 ==> s[k] == ')'
        ensures k == 4 ==> s[k] == ' '
        ensures k == 5 ==> s[k] == '9'
        ensures (7 <= k < 10 || 11 <= k) ==> IsDigit(s[k])
        ensures k == 10 ==> s[k] == '-'
      {
        MatchAtEach(t, s, 0, k);
      }
    }
    if TelefoneShape(s) {
      forall k | 0 <= k < 15
        ensures TokenMatches(t[k], s[k])
      {
      }
    }
  }

  /** The telefone rule agrees with the reference reading on every string. */
  lemma TelefoneMatchesIff(s: string)
    ensures TelefoneMatches(s) <==> TelefoneShape(s)
  {
    if |s| == 14 {
      LandlineIff(s);
    } else if |s| == 15 {
      MobileIff(s);
    }
  }

  /** The well-formed cnpj of the test suites passes, and so does any separator in place of the dots. */
  lemma CnpjAccepted()
    ensures CnpjMatches("05.570.714/0001-59")
    ensures CnpjMatches("05x570y714/0001-59")
  {
    assert CnpjAt("05.570.714/0001-59", 0);
    assert CnpjAt("05x570y714/0001-59", 0);
    CnpjMatchesIff("05.570.714/0001-59");
    CnpjMatchesIff("05x570y714/0001-59");
  }

  /** The cnpj regex is unanchored: text around a well-formed cnpj does not make it fail. */
  lemma CnpjUnanchored()
    ensures CnpjMatches("CNPJ 05.570.714/0001-59 (matriz)")
  {
    assert CnpjAt("CNPJ 05.570.714/0001-59 (matriz)", 5);
    CnpjMatchesIff("CNPJ 05.570.714/0001-59 (matriz)");
  }

  /**
    A separator outside the Basic Multilingual Plane does not pass for the
    cnpj's `.`: it is two UTF-16 code units, and the second is no digit.
  */
  lemma AstralSeparatorRejected()
    ensures !CnpjMatches("05\U{1F600}570.714/0001-59")
  {
    var s := "05\U{1F600}570.714/0001-59";
    CnpjMatchesIff(s);
    assert !CnpjAt(s, 0);
  }

  /** The truncated cnpj and cep of the test suites fail. */
  lemma TruncatedRejected()
    ensures !CnpjMatches("05.570.714/0001-5")
    ensures !CepMatches("13480-01")
  {
  }

  lemma TelefoneExamples()
    ensures TelefoneMatches("(19) 2113-8250")
    ensures TelefoneMatches("(19) 92113-8250")
    ensures !TelefoneMatches("(19) 2113-825")
    ensures !TelefoneMatches("(19) 9113-8250 ")
  {
    TelefoneMatchesIff("(19) 2113-8250");
    TelefoneMatchesIff("(19) 92113-8250");
    TelefoneMatchesIff("(19) 9113-8250 ");
  }

  lemma CepExamples()
    ensures CepMatches("13480-010")
    ensures CepMatches("CEP 13480-0100")
  {
    assert CepAt("13480-010", 0);
    assert CepAt("CEP 13480-0100", 4);
    CepMatchesIff("13480-010");
    CepMatchesIff("CEP 13480-0100");
  }
}
