/**
 * What the forms of the application share: blankness (`!s.trim()`), the
 * email pattern `/^[^\s@]+@[^\s@]+\.[^\s@]+$/`, the ordered early-return
 * checks every form runs before acting, and what a screen shows afterwards.
 */
module Validation {
  import opened Wrappers
  import opened Text

  /** `!s.trim()`: the text is empty once the surrounding white space is removed. */
  predicate Blank(s: string) {
    Trim(s) == []
  }

  // ---------------------------------------------------------------- email

  /** `[^\s@]`: neither white space nor `@`. */
  predicate EmailChar(c: char) {
    !IsWhite(c) && c != '@'
  }

  /** `[^\s@]+`: a non-empty run of such characters. */
  predicate EmailRun(s: string) {
    |s| > 0 && forall i :: 0 <= i < |s| ==> EmailChar(s[i])
  }

  /** The whole string matches with its `@` at `p` and the `.` that splits the domain at `q`. */
  predicate EmailAt(s: string, p: int, q: int) {
    0 < p < q < |s| && s[p] == '@' && s[q] == '.'
    && EmailRun(s[..p]) && EmailRun(s[p + 1..q]) && EmailRun(s[q + 1..])
  }

  /** `/^[^\s@]+@[^\s@]+\.[^\s@]+$/.test(s)`. */
  predicate IsEmail(s: string) {
    exists p, q :: 0 < p < q < |s| && EmailAt(s, p, q)
  }

  // ---------------------------------------------------------------- checks

  /** One early-return check: whether it fails, and the error reported when it does. */
  datatype Check<E> = Check(fails: bool, error: E)

  /** The error of the first failing check, or `None` when every check passes. */
  function FirstFailure<E>(checks: seq<Check<E>>): Option<E> {
    if checks == [] then None
    else if checks[0].fails then Some(checks[0].error)
    else FirstFailure(checks[1..])
  }

  // ---------------------------------------------------------------- outcome

  /** Where a screen sends the user. */
  datatype Destination = MainTabs | PreviousScreen

  /** What a screen shows when a handler finishes: an alert, optionally followed by navigation, or navigation alone. */
  datatype Feedback =
    | Alert(title: string, message: string)
    | AlertThen(title: string, message: string, next: Destination)
    | Navigate(next: Destination)

  const ErrorTitle := "Erro"
  const SuccessTitle := "Sucesso"

  // ---------------------------------------------------------------- lemmas

  /** A blank string is nothing but white space. */
  lemma BlankIsWhite(s: string)
    ensures Blank(s) <==> forall i :: 0 <= i < |s| ==> IsWhite(s[i])
  {
    BlankIffAllWhite(s);
  }

  /**
   * A matching email holds no white space and exactly one `@`, which is
   * neither its first nor its last character; so it is never blank.
   */
  lemma EmailShape(s: string)
    requires IsEmail(s)
    ensures forall i :: 0 <= i < |s| ==> !IsWhite(s[i])
    ensures exists p :: 0 < p < |s| - 1 && s[p] == '@' && forall i :: 0 <= i < |s| && s[i] == '@' ==> i == p
    ensures !Blank(s)
  {
    var p, q :| 0 < p < q < |s| && EmailAt(s, p, q);
    forall i | 0 <= i < |s| ensures !IsWhite(s[i]) && (s[i] == '@' ==> i == p) {
      if i < p {
        assert s[i] == s[..p][i];
      } else if p < i < q {
        assert s[i] == s[p + 1..q][i - p - 1];
      } else if q < i {
        assert s[i] == s[q + 1..][i - q - 1];
      }
    }
    BlankIffAllWhite(s);
  }

  /** The pattern is tested on the text as typed: white space around an email makes it fail. */
  lemma PaddedEmailRejected(s: string)
    requires |s| > 0 && (IsWhite(s[0]) || IsWhite(s[|s| - 1]))
    ensures !IsEmail(s)
  {
    if IsEmail(s) {
      EmailShape(s);
    }
  }

  /** A sample match, and samples lacking the domain's point, the local part, or with a second `@`. */
  lemma EmailSamples()
    ensures IsEmail("ana@mail.com")
    ensures !IsEmail("ana@mail") && !IsEmail("@mail.com") && !IsEmail("ana@@mail.com")
  {
    var s := "ana@mail.com";
    assert EmailAt(s, 3, 8) by {
      assert s[..3] == "ana" && s[4..8] == "mail" && s[9..] == "com";
    }
    NoPointNoEmail("ana@mail");
    if IsEmail("@mail.com") {
      EmailShape("@mail.com");
    }
    TwoAtsNoEmail("ana@@mail.com", 3, 4);
  }

  /** A second `@` rules the match out. */
  lemma TwoAtsNoEmail(s: string, i: int, j: int)
    requires 0 <= i < j < |s| && s[i] == '@' && s[j] == '@'
    ensures !IsEmail(s)
  {
    if IsEmail(s) {
      EmailShape(s);
    }
  }

  /** Without a `.` after the `@` there is no match. */
  lemma NoPointNoEmail(s: string)
    requires forall i :: 0 <= i < |s| ==> s[i] != '.'
    ensures !IsEmail(s)
  {
  }

  /** Every check before the one reported passes, the reported one fails, and `None` means every check passes. */
  lemma {:induction false} FirstFailureSpec<E>(checks: seq<Check<E>>)
    ensures FirstFailure(checks).None? <==> forall k :: 0 <= k < |checks| ==> !checks[k].fails
    ensures FirstFailure(checks).Some? ==>
      exists k :: 0 <= k < |checks| && checks[k].fails && checks[k].error == FirstFailure(checks).value
                  && (forall j :: 0 <= j < k ==> !checks[j].fails)
  {
    if checks != [] && !checks[0].fails {
      var rest := checks[1..];
      FirstFailureSpec(rest);
      assert forall k :: 1 <= k < |checks| ==> checks[k] == rest[k - 1];
      if FirstFailure(rest).Some? {
        var k :| 0 <= k < |rest| && rest[k].fails && rest[k].error == FirstFailure(rest).value
                 && (forall j :: 0 <= j < k ==> !rest[j].fails);
        assert checks[k + 1] == rest[k];
      }
    }
  }

  /** The checks of `a + b`: those of `b` run only when every check of `a` passes. */
  lemma {:induction false} FirstFailureAppend<E>(a: seq<Check<E>>, b: seq<Check<E>>)
    ensures FirstFailure(a + b) == if FirstFailure(a).Some? then FirstFailure(a) else FirstFailure(b)
  {
    if a != [] {
      assert (a + b)[0] == a[0];
      assert (a + b)[1..] == a[1..] + b;
      FirstFailureAppend(a[1..], b);
    } else {
      assert a + b == b;
    }
  }

  /** Two checks, run in order. */
  lemma FirstOfTwo<E>(c0: Check<E>, c1: Check<E>)
    ensures FirstFailure([c0, c1]) ==
      if c0.fails then Some(c0.error) else if c1.fails then Some(c1.error) else None
  {
    var t := [c1];
    assert t[1..] == [];
    assert FirstFailure(t) == if c1.fails then Some(c1.error) else None;
    assert [c0, c1][1..] == t;
  }

  /** Three checks, run in order. */
  lemma FirstOfThree<E>(c0: Check<E>, c1: Check<E>, c2: Check<E>)
    ensures FirstFailure([c0, c1, c2]) ==
      if c0.fails then Some(c0.error) else if c1.fails then Some(c1.error)
      else if c2.fails then Some(c2.error) else None
  {
    assert [c0, c1, c2][1..] == [c1, c2];
    FirstOfTwo(c1, c2);
  }

  /** Four checks, run in order. */
  lemma FirstOfFour<E>(c0: Check<E>, c1: Check<E>, c2: Check<E>, c3: Check<E>)
    ensures FirstFailure([c0, c1, c2, c3]) ==
      if c0.fails then Some(c0.error) else if c1.fails then Some(c1.error)
      else if c2.fails then Some(c2.error) else if c3.fails then Some(c3.error) else None
  {
    assert [c0, c1, c2, c3][1..] == [c1, c2, c3];
    FirstOfThree(c1, c2, c3);
  }
}
