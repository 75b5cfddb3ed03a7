/** The input rules the signup and profile forms share: the e-mail pattern, the
    password checklist, the word-capitalising name formatter and the age field. */
module FormRules {
  import opened Wrappers
  import opened Strings
  import Java
  import AuthService

  // ---------------------------------------------------------------------------
  // E-mail: /^[\w.%+-]+@[A-Za-z0-9.-]+\.[A-Za-z]{2,}$/

  predicate IsAsciiDigit(c: char) { '0' <= c <= '9' }

  /** `[\w.%+-]`: ASCII letters, digits, `_`, `.`, `%`, `+`, `-`. */
  predicate LocalChar(c: char) {
    IsAsciiLetter(c) || IsAsciiDigit(c) || c == '_' || c == '.' || c == '%' || c == '+' || c == '-'
  }

  /** `[A-Za-z0-9.-]`. */
  predicate DomainChar(c: char) {
    IsAsciiLetter(c) || IsAsciiDigit(c) || c == '.' || c == '-'
  }

  /** The pattern read declaratively: an `@` at `a` and a dot at `k` cut the text into
      a non-empty local part, a non-empty domain and a top-level part of at least two
      letters. */
  predicate MatchesEmailPattern(s: string) {
    exists a, k :: 0 < a && a + 1 < k && k + 2 < |s| && EmailCut(s, a, k)
  }

  predicate EmailCut(s: string, a: int, k: int)
    requires 0 < a && a + 1 < k && k + 2 < |s|
  {
    s[a] == '@' && s[k] == '.'
    && (forall i :: 0 <= i < a ==> LocalChar(s[i]))
    && (forall i :: a < i < k ==> DomainChar(s[i]))
    && (forall i :: k < i < |s| ==> IsAsciiLetter(s[i]))
  }

  /** Index of the last `c` in `s`, or -1. */
  function LastIndexOf(s: string, c: char): (r: int)
    ensures -1 <= r < |s|
    ensures r >= 0 ==> s[r] == c
    ensures forall i :: r < i < |s| ==> s[i] != c
  {
    if s == [] then -1
    else if s[|s| - 1] == c then |s| - 1
    else LastIndexOf(s[..|s| - 1], c)
  }

  /** `validateEmail(email)`: the first `@` and the last dot decide the cut. */
  function ValidateEmail(s: string): bool {
    var a := IndexOf(s, '@');
    var k := LastIndexOf(s, '.');
    0 < a && a + 1 < k && k + 2 < |s| && EmailCut(s, a, k)
  }

  /** The check accepts exactly the strings the pattern matches. */
  lemma ValidateEmailMatchesPattern(s: string)
    ensures ValidateEmail(s) <==> MatchesEmailPattern(s)
  {
    if MatchesEmailPattern(s) {
      var a, k :| 0 < a && a + 1 < k && k + 2 < |s| && EmailCut(s, a, k);
      var a' := IndexOf(s, '@');
      assert a' == a by {
        assert forall i :: 0 <= i < a ==> s[i] != '@';
        assert '@' !in s[..a];
      }
      var k' := LastIndexOf(s, '.');
      assert k' == k by {
        assert forall i :: k < i < |s| ==> s[i] != '.';
      }
    }
  }

  // ---------------------------------------------------------------------------
  // Password checklist.

  const NEED_LENGTH := "at least 6 characters"
  const NEED_UPPER := "an uppercase letter"
  const NEED_LOWER := "a lowercase letter"
  const NEED_DIGIT := "a number"
  const NEED_SPECIAL := "a special character (!@#$%^&*)"

  predicate HasUpper(p: string) { exists i :: 0 <= i < |p| && 'A' <= p[i] <= 'Z' }
  predicate HasLower(p: string) { exists i :: 0 <= i < |p| && 'a' <= p[i] <= 'z' }
  predicate HasDigit(p: string) { exists i :: 0 <= i < |p| && IsAsciiDigit(p[i]) }
  predicate HasSpecial(p: string) { exists i :: 0 <= i < |p| && p[i] in "!@#$%^&*" }

  /** Every rule of the checklist holds. */
  predicate Strong(p: string) {
    |p| >= 6 && HasUpper(p) && HasLower(p) && HasDigit(p) && HasSpecial(p)
  }

  /** `getPasswordFeedback(pass)`: the unmet rules in the checklist's order. It is
      empty exactly for strong passwords, each message is listed exactly when its
      rule fails, the length rule comes first and the special-character rule last. */
  function PasswordFeedback(p: string): (r: seq<string>)
    ensures r == [] <==> Strong(p)
    ensures NEED_LENGTH in r <==> |p| < 6
    ensures NEED_UPPER in r <==> !HasUpper(p)
    ensures NEED_LOWER in r <==> !HasLower(p)
    ensures NEED_DIGIT in r <==> !HasDigit(p)
    ensures NEED_SPECIAL in r <==> !HasSpecial(p)
    ensures |p| < 6 ==> r[0] == NEED_LENGTH
    ensures !HasSpecial(p) ==> r[|r| - 1] == NEED_SPECIAL
  {
    (if |p| < 6 then [NEED_LENGTH] else [])
    + (if !HasUpper(p) then [NEED_UPPER] else [])
    + (if !HasLower(p) then [NEED_LOWER] else [])
    + (if !HasDigit(p) then [NEED_DIGIT] else [])
    + (if !HasSpecial(p) then [NEED_SPECIAL] else [])
  }

  // ---------------------------------------------------------------------------
  // Name formatter: lower-case, split on " ", upper-case each word's first
  // character, join with " ".

  /** `word.charAt(0).toUpperCase() + word.slice(1)`. */
  function CapFirst(w: string): (r: string)
    ensures |r| == |w|
  {
    if w == [] then [] else [UpperChar(w[0])] + w[1..]
  }

  function MapCapFirst(ws: seq<string>): (r: seq<string>)
    ensures |r| == |ws| && forall i :: 0 <= i < |ws| ==> r[i] == CapFirst(ws[i])
  {
    if ws == [] then [] else [CapFirst(ws[0])] + MapCapFirst(ws[1..])
  }

  /** The name formatter as the forms write it. */
  function FormatName(s: string): string {
    Join(MapCapFirst(Split(Lower(s), ' ')), ' ')
  }

  /** Reference definition: a character is upper-cased when it starts the text or
      follows a space, and left alone otherwise. */
  function CapitalizeWords(t: string): (r: string)
    ensures |r| == |t|
  {
    seq(|t|, i requires 0 <= i < |t| => if i == 0 || t[i - 1] == ' ' then UpperChar(t[i]) else t[i])
  }

  lemma CapitalizeAfterWord(w: string, x: string)
    requires ' ' !in w
    ensures CapitalizeWords(w + " " + x) == CapFirst(w) + " " + CapitalizeWords(x)
  {
    var t := w + " " + x;
    var l := CapFirst(w) + " " + CapitalizeWords(x);
    assert |CapitalizeWords(t)| == |l|;
    forall i | 0 <= i < |t| ensures CapitalizeWords(t)[i] == l[i] {
      if i < |w| {
        if i > 0 {
          assert t[i - 1] == w[i - 1];
        }
      } else if i == |w| {
      } else {
        var j := i - |w| - 1;
        assert t[i] == x[j];
        if j > 0 {
          assert t[i - 1] == x[j - 1];
        }
      }
    }
  }

  /** Capitalising the words of a join is capitalising each word. */
  lemma {:induction false} CapitalizeJoin(ws: seq<string>)
    requires forall k :: 0 <= k < |ws| ==> ' ' !in ws[k]
    ensures Join(MapCapFirst(ws), ' ') == CapitalizeWords(Join(ws, ' '))
  {
    if |ws| == 1 {
      var w := ws[0];
      assert CapitalizeWords(w) == CapFirst(w);
    } else if |ws| > 1 {
      CapitalizeJoin(ws[1..]);
      assert MapCapFirst(ws)[1..] == MapCapFirst(ws[1..]);
      CapitalizeAfterWord(ws[0], Join(ws[1..], ' '));
      assert Join(ws, ' ') == ws[0] + " " + Join(ws[1..], ' ');
    }
  }

  /** The formatter upper-cases the start of every word of the lower-cased name. */
  lemma FormatNameIsCapitalizeWords(s: string)
    ensures FormatName(s) == CapitalizeWords(Lower(s))
  {
    SplitPiecesHaveNoSeparator(Lower(s), ' ');
    var ws := Split(Lower(s), ' ');
    assert forall k :: 0 <= k < |ws| ==> ' ' !in ws[k] by {
      forall k | 0 <= k < |ws| ensures ' ' !in ws[k] {
        assert ws[k] in ws;
      }
    }
    CapitalizeJoin(ws);
    JoinSplit(Lower(s), ' ');
  }

  /** Lower-casing undoes the capitals the formatter puts back. */
  lemma LowerCapitalizeLower(s: string)
    ensures Lower(CapitalizeWords(Lower(s))) == Lower(s)
  {
    var l := Lower(s);
    var t := CapitalizeWords(l);
    forall i | 0 <= i < |s| ensures Lower(t)[i] == l[i] {
      assert t[i] == l[i] || t[i] == UpperChar(l[i]);
    }
  }

  /** Formatting a formatted name changes nothing. */
  lemma FormatNameIdempotent(s: string)
    ensures FormatName(FormatName(s)) == FormatName(s)
  {
    FormatNameIsCapitalizeWords(s);
    FormatNameIsCapitalizeWords(FormatName(s));
    LowerCapitalizeLower(s);
  }

  /** Formatting keeps the length and puts spaces exactly where the input had them. */
  lemma FormatNameKeepsSpaces(s: string)
    ensures |FormatName(s)| == |s|
    ensures forall i :: 0 <= i < |s| ==> (FormatName(s)[i] == ' ' <==> s[i] == ' ')
  {
    FormatNameIsCapitalizeWords(s);
  }

  // ---------------------------------------------------------------------------
  // Age field.

  /** `/^\d*$/`: the field only takes digit strings, the empty one included. */
  predicate AgeInputAccepted(v: string) {
    AllDigits(v)
  }

  /** `parseInt(v, 10)` between 18 and 120; an empty field parses to NaN and fails. */
  predicate AgeValid(v: string)
    requires AgeInputAccepted(v)
  {
    v != "" && 18 <= DigitsValue(v) <= 120
  }

  /** An age the form accepts as valid is one the signup service reads back and
      does not reject as too young. */
  lemma ValidAgeAcceptedBySignup(v: string)
    requires AgeInputAccepted(v) && AgeValid(v)
    ensures AuthService.ParseIntSafely(Java.JString(v)) == Some(DigitsValue(v))
    ensures DigitsValue(v) >= 18
  {
    assert IsDigit(v[0]);
  }
}
