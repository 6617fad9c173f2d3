/**
 * The email check of the technician form, `/^\S+@\S+\.\S+$/` (TechnicianForm.tsx:62): a
 * small anchored regular-expression matcher over sequences of single and one-or-more
 * atoms, the pattern itself, and its meaning stated without a matcher.
 */
module EmailPattern {
  import opened Text

  /** `\S`, or one literal character. */
  datatype Atom = NonSpace | Literal(c: char)

  /** An atom once, or an atom with `+`. */
  datatype Piece = Once(atom: Atom) | OneOrMore(atom: Atom)

  predicate AtomMatches(a: Atom, c: char) {
    match a
    case NonSpace => !IsSpace(c)
    case Literal(d) => c == d
  }

  /**
   * `^p$` matches all of `s`: a `+` piece takes one character and then either stops or
   * goes on, exactly as a backtracking engine tries it.
   */
  predicate Matches(p: seq<Piece>, s: string)
    decreases |p|, |s|
  {
    if p == [] then s == []
    else if s == [] then false
    else match p[0]
      case Once(a) => AtomMatches(a, s[0]) && Matches(p[1..], s[1..])
      case OneOrMore(a) =>
        AtomMatches(a, s[0]) && (Matches(p[1..], s[1..]) || Matches(p, s[1..]))
  }

  /** `\S+@\S+\.\S+` */
  const Email: seq<Piece> :=
    [OneOrMore(NonSpace), Once(Literal('@')), OneOrMore(NonSpace), Once(Literal('.')),
     OneOrMore(NonSpace)]

  /**
   * The strings the pattern accepts, without a matcher: no white space, an `@` with
   * something before it, a later `.` with something between the two, and something after
   * the `.`.
   */
  predicate EmailShaped(s: string) {
    NoSpace(s) &&
    exists at, dot :: 1 <= at && at + 2 <= dot && dot + 2 <= |s| && s[at] == '@' && s[dot] == '.'
  }

  /** `\S+` */
  lemma {:induction false} LastRun(s: string)
    ensures Matches(Email[4..], s) <==> |s| >= 1 && NoSpace(s)
    decreases |s|
  {
    if s != [] {
      LastRun(s[1..]);
      assert Email[4..][1..] == [];
    }
  }

  /** `\.\S+` */
  lemma DotRun(s: string)
    ensures Matches(Email[3..], s) <==> |s| >= 2 && s[0] == '.' && NoSpace(s[1..])
  {
    if s != [] {
      assert Email[3..][1..] == Email[4..];
      LastRun(s[1..]);
    }
  }

  /** `\S+\.\S+` */
  lemma {:induction false} MiddleRun(s: string)
    ensures Matches(Email[2..], s) <==>
              NoSpace(s) && exists dot :: 1 <= dot && dot + 2 <= |s| && s[dot] == '.'
    decreases |s|
  {
    if s != [] {
      assert Email[2..][1..] == Email[3..];
      DotRun(s[1..]);
      MiddleRun(s[1..]);
      var t := s[1..];
      if Matches(Email[2..], s) {
        if Matches(Email[3..], t) {
          assert s[1] == '.';
        } else {
          var d :| 1 <= d && d + 2 <= |t| && t[d] == '.';
          assert s[d + 1] == '.';
        }
      }
      if NoSpace(s) && exists dot :: 1 <= dot && dot + 2 <= |s| && s[dot] == '.' {
        var dot :| 1 <= dot && dot + 2 <= |s| && s[dot] == '.';
        assert !IsSpace(s[0]);
        if dot == 1 {
          assert Matches(Email[3..], t);
        } else {
          assert t[dot - 1] == '.';
          assert Matches(Email[2..], t);
        }
      }
    }
  }

  /** `@\S+\.\S+` */
  lemma AtRun(s: string)
    ensures Matches(Email[1..], s) <==>
              |s| >= 1 && s[0] == '@' && Matches(Email[2..], s[1..])
  {
    if s != [] {
      assert Email[1..][1..] == Email[2..];
    }
  }

  /** The pattern matches exactly the strings of that shape (by induction on the first run). */
  lemma {:induction false} EmailMatchesIffShaped(s: string)
    ensures Matches(Email, s) <==> EmailShaped(s)
    decreases |s|
  {
    if s != [] {
      var t := s[1..];
      AtRun(t);
      EmailMatchesIffShaped(t);
      if t != [] {
        MiddleRun(t[1..]);
      }
      if Matches(Email, s) {
        if Matches(Email[1..], t) {
          var u := t[1..];
          var d :| 1 <= d && d + 2 <= |u| && u[d] == '.';
          assert t[0] == '@' && s[1] == '@';
          assert s[d + 2] == '.';
          assert NoSpace(s) by {
            assert !IsSpace(s[0]) && !IsSpace(s[1]);
            assert forall i :: 2 <= i < |s| ==> s[i] == u[i - 2];
          }
        } else {
          var at, dot :| 1 <= at && at + 2 <= dot && dot + 2 <= |t| && t[at] == '@'
                         && t[dot] == '.';
          assert s[at + 1] == '@' && s[dot + 1] == '.';
        }
      }
      if EmailShaped(s) {
        var at, dot :| 1 <= at && at + 2 <= dot && dot + 2 <= |s| && s[at] == '@'
                       && s[dot] == '.';
        assert !IsSpace(s[0]);
        if at == 1 {
          var u := t[1..];
          assert u[dot - 2] == '.';
          assert NoSpace(u);
          assert Matches(Email[1..], t);
        } else {
          assert t[at - 1] == '@' && t[dot - 1] == '.';
          assert EmailShaped(t);
        }
      }
    }
  }

  /** An ordinary address, and one without a dot after the `@`. */
  const Ordinary := "ana@mail.com"
  const WithoutDot := "ana@mail"

  /** The ordinary address is accepted. */
  lemma AcceptedExample()
    ensures Matches(Email, Ordinary)
  {
    EmailMatchesIffShaped(Ordinary);
    assert NoSpace(Ordinary) by {
      forall i | 0 <= i < |Ordinary| ensures !IsSpace(Ordinary[i]) {
      }
    }
    assert Ordinary[3] == '@' && Ordinary[8] == '.';
  }

  /** The address without a dot is refused. */
  lemma RefusedExample()
    ensures !Matches(Email, WithoutDot)
  {
    EmailMatchesIffShaped(WithoutDot);
    assert forall i :: 0 <= i < |WithoutDot| ==> WithoutDot[i] != '.';
  }
}
