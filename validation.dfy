/**
 * The four RSVP field validators and the string primitives they rest on:
 * the ECMAScript notion of white space (shared by `String.prototype.trim`
 * and the regular-expression class `\s`) and trimming.
 */
module Validation {

  /** ECMAScript WhiteSpace and LineTerminator code points. */
  predicate IsSpace(c: char) {
    || c == '\t' || c == '\n' || c == '\U{B}' || c == '\U{C}' || c == '\r'
    || c == ' ' || c == '\U{A0}' || c == '\U{1680}'
    || ('\U{2000}' <= c <= '\U{200A}')
    || c == '\U{2028}' || c == '\U{2029}' || c == '\U{202F}' || c == '\U{205F}'
    || c == '\U{3000}' || c == '\U{FEFF}'
  }

  /** Number of white-space characters at the start of `s`. */
  function LeadingSpaces(s: string): (n: nat)
    ensures n <= |s|
    ensures forall i :: 0 <= i < n ==> IsSpace(s[i])
    ensures n < |s| ==> !IsSpace(s[n])
  {
    if s == [] || !IsSpace(s[0]) then 0 else 1 + LeadingSpaces(s[1..])
  }

  /** Number of white-space characters at the end of `s`. */
  function TrailingSpaces(s: string): (n: nat)
    ensures n <= |s|
    ensures forall i :: |s| - n <= i < |s| ==> IsSpace(s[i])
    ensures n < |s| ==> !IsSpace(s[|s| - 1 - n])
  {
    if s == [] || !IsSpace(s[|s| - 1]) then 0 else 1 + TrailingSpaces(s[..|s| - 1])
  }

  /**
   * `s` without its leading and trailing white space: a window of `s` that
   * starts after the leading white space and holds every non-space character.
   */
  function Trim(s: string): (r: string)
    ensures |r| <= |s|
    ensures r == [] <==> forall i :: 0 <= i < |s| ==> IsSpace(s[i])
    ensures r != [] ==> !IsSpace(r[0]) && !IsSpace(r[|r| - 1])
    ensures LeadingSpaces(s) + |r| <= |s|
    ensures forall i :: 0 <= i < |r| ==> r[i] == s[LeadingSpaces(s) + i]
    ensures forall i :: 0 <= i < |s| && !IsSpace(s[i]) ==>
              LeadingSpaces(s) <= i < LeadingSpaces(s) + |r|
  {
    var lo := LeadingSpaces(s);
    if lo == |s| then []
    else
      var hi := |s| - TrailingSpaces(s);
      assert lo < hi;
      s[lo..hi]
  }

  /** Trimming twice is the same as trimming once. */
  lemma TrimIdempotent(s: string)
    ensures Trim(Trim(s)) == Trim(s)
  {
  }

  // ---------------------------------------------------------------- name

  /** The name validator: the trimmed value has at least two characters. */
  predicate ValidName(v: string) {
    |Trim(v)| >= 2
  }

  /** A name is accepted exactly when it holds two non-space characters. */
  lemma NameValidIff(v: string)
    ensures ValidName(v) <==>
            exists i, j :: 0 <= i < j < |v| && !IsSpace(v[i]) && !IsSpace(v[j])
  {
  }

  // ---------------------------------------------------------------- email

  /** `d` holds a `.` that is neither its first nor its last character. */
  predicate HasInnerDot(d: string) {
    exists j :: 0 < j < |d| - 1 && d[j] == '.'
  }

  /**
   * The email validator, written out by hand: no white space, exactly one
   * `@`, a non-empty part before it, and a domain after it that holds a `.`
   * which is neither its first nor its last character.
   */
  predicate ValidEmail(v: string) {
    && (forall i :: 0 <= i < |v| ==> !IsSpace(v[i]))
    && exists k :: 0 < k < |v| && v[k] == '@'
                && (forall i :: 0 <= i < |v| && v[i] == '@' ==> i == k)
                && HasInnerDot(v[k + 1..])
  }

  /** One run of the regular-expression class `[^\s@]+`. */
  predicate Atom(x: string) {
    |x| > 0 && forall i :: 0 <= i < |x| ==> !IsSpace(x[i]) && x[i] != '@'
  }

  /** What the anchored pattern `^[^\s@]+@[^\s@]+\.[^\s@]+$` accepts. */
  ghost predicate MatchesEmailPattern(v: string) {
    exists a, b, c :: Atom(a) && Atom(b) && Atom(c) && v == a + "@" + b + "." + c
  }

  /** A non-empty slice free of white space and `@` is one atom. */
  lemma SliceIsAtom(v: string, lo: nat, hi: nat)
    requires lo < hi <= |v|
    requires forall i :: lo <= i < hi ==> !IsSpace(v[i]) && v[i] != '@'
    ensures Atom(v[lo..hi])
  {
  }

  /** A string cut at an `@` and a later `.` is the concatenation of its three pieces. */
  lemma {:induction false} SplitAround(v: string, k: nat, dot: nat)
    requires k < dot < |v| && v[k] == '@' && v[dot] == '.'
    ensures v == v[..k] + "@" + v[k + 1..dot] + "." + v[dot + 1..]
  {
    assert v == v[..k] + [v[k]] + v[k + 1..dot] + [v[dot]] + v[dot + 1..];
  }

  /** Every address the hand-written check accepts splits as the pattern demands. */
  lemma EmailToPattern(v: string)
    requires ValidEmail(v)
    ensures MatchesEmailPattern(v)
  {
    var k :| 0 < k < |v| && v[k] == '@'
           && (forall i :: 0 <= i < |v| && v[i] == '@' ==> i == k)
           && HasInnerDot(v[k + 1..]);
    var d := v[k + 1..];
    var j :| 0 < j < |d| - 1 && d[j] == '.';
    var dot := k + 1 + j;
    assert v[dot] == d[j];
    assert forall i :: 0 <= i < |v| && i != k ==> !IsSpace(v[i]) && v[i] != '@';
    SliceIsAtom(v, 0, k);
    SliceIsAtom(v, k + 1, dot);
    SliceIsAtom(v, dot + 1, |v|);
    SplitAround(v, k, dot);
    var a, b, c := v[..k], v[k + 1..dot], v[dot + 1..];
    assert Atom(a) && Atom(b) && Atom(c) && v == a + "@" + b + "." + c;
  }

  /** Every string the pattern matches passes the hand-written check. */
  lemma {:induction false} PatternToEmail(v: string, a: string, b: string, c: string)
    requires Atom(a) && Atom(b) && Atom(c) && v == a + "@" + b + "." + c
    ensures ValidEmail(v)
  {
    var k := |a|;
    assert v[k] == '@';
    forall i | 0 <= i < |v|
      ensures !IsSpace(v[i]) && (v[i] == '@' ==> i == k)
    {
      if i < k {
        assert v[i] == a[i];
      } else if k < i < k + 1 + |b| {
        assert v[i] == b[i - k - 1];
      } else if k + 1 + |b| < i {
        assert v[i] == c[i - k - 2 - |b|];
      }
    }
    var d := v[k + 1..];
    assert d == b + "." + c;
    assert d[|b|] == '.';
    assert HasInnerDot(d);
  }

  /** The hand-written email check accepts exactly what the pattern matches. */
  lemma EmailMatchesPattern(v: string)
    ensures ValidEmail(v) <==> MatchesEmailPattern(v)
  {
    if ValidEmail(v) {
      EmailToPattern(v);
    }
    if MatchesEmailPattern(v) {
      var a, b, c :| Atom(a) && Atom(b) && Atom(c) && v == a + "@" + b + "." + c;
      PatternToEmail(v, a, b, c);
    }
  }

  /** `a@b.com` is accepted; `a@b` and four other malformed addresses are refused. */
  lemma EmailExamples()
    ensures ValidEmail("a@b.com")
    ensures !ValidEmail("a@b")
    ensures !ValidEmail("a @b.com")
    ensures !ValidEmail("a@b@c.com")
    ensures !ValidEmail("a@b.")
    ensures !ValidEmail("a@.com")
  {
    var v := "a@b.com";
    assert v[2..][1] == '.';
    assert HasInnerDot(v[2..]);
    assert v[1] == '@';
    assert !ValidEmail("a @b.com") by { assert IsSpace("a @b.com"[1]); }
    var w := "a@b@c.com";
    assert w[1] == '@' && w[3] == '@';
  }

  // ---------------------------------------------------------------- guests

  /**
   * The guests input as JavaScript's `Number(v)` leaves it: either a whole
   * number or NaN (non-numeric text).
   */
  datatype Quantity = NotANumber | Number(value: int)

  /** The guests validator: the coerced value is at least 1 (NaN never is). */
  predicate ValidGuests(q: Quantity) {
    q.Number? && q.value >= 1
  }

  /** One guest or more passes; zero, negative counts and NaN are refused. */
  lemma GuestsExamples()
    ensures ValidGuests(Number(1)) && ValidGuests(Number(12))
    ensures !ValidGuests(Number(0)) && !ValidGuests(Number(-2)) && !ValidGuests(NotANumber)
  {
  }

  /** A count above an accepted count is accepted too. */
  lemma GuestsUpwardClosed(a: int, b: int)
    requires ValidGuests(Number(a)) && a <= b
    ensures ValidGuests(Number(b))
  {
  }

  // ---------------------------------------------------------------- lift

  /** The favourite-lift validator: the trimmed value is not empty. */
  predicate ValidLift(v: string) {
    Trim(v) != ""
  }

  /** A lift choice is accepted exactly when it holds a non-space character. */
  lemma LiftValidIff(v: string)
    ensures ValidLift(v) <==> exists i :: 0 <= i < |v| && !IsSpace(v[i])
  {
  }

  // ---------------------------------------------------------------- fields

  /** The four validated inputs, in the order the form checks them. */
  datatype Field = NameField | EmailField | GuestsField | LiftField

  const Fields: seq<Field> := [NameField, EmailField, GuestsField, LiftField]

  /** The values the four inputs hold. */
  datatype FormValues = FormValues(name: string, email: string, guests: Quantity, lift: string)

  /** The field's own validator applied to its current value. */
  predicate Passes(v: FormValues, f: Field) {
    match f
    case NameField => ValidName(v.name)
    case EmailField => ValidEmail(v.email)
    case GuestsField => ValidGuests(v.guests)
    case LiftField => ValidLift(v.lift)
  }

  /** The error message each field shows when its validator fails. */
  function Message(f: Field): string {
    match f
    case NameField => "Please enter your full name."
    case EmailField => "Enter a valid email (e.g., you@example.com)."
    case GuestsField => "Guests must be at least 1."
    case LiftField => "Please choose a favorite lift."
  }

  /** Each field has its own message, so the message names the failing field. */
  lemma MessagesDistinct(f: Field, g: Field)
    ensures Message(f) == Message(g) <==> f == g
  {
  }

  /** Every field passes its validator. */
  predicate Accepted(v: FormValues) {
    ValidName(v.name) && ValidEmail(v.email) && ValidGuests(v.guests) && ValidLift(v.lift)
  }

  /** A submission is accepted exactly when each field in `Fields` passes. */
  lemma AcceptedIff(v: FormValues)
    ensures Accepted(v) <==> forall j :: 0 <= j < |Fields| ==> Passes(v, Fields[j])
  {
    if Accepted(v) {
      forall j | 0 <= j < |Fields| ensures Passes(v, Fields[j]) {
      }
    }
    if forall j :: 0 <= j < |Fields| ==> Passes(v, Fields[j]) {
      assert Passes(v, Fields[0]) && Passes(v, Fields[1]);
      assert Passes(v, Fields[2]) && Passes(v, Fields[3]);
    }
  }

  /** An accepted name is never empty once trimmed; an accepted email has nothing to trim. */
  lemma AcceptedTrims(v: FormValues)
    requires Accepted(v)
    ensures Trim(v.name) != ""
    ensures Trim(v.email) == v.email
  {
  }
}
