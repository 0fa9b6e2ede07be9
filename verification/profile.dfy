/** The profile page: the checks run when the profile is saved (a name, and an e-mail
    address the pattern `^[^\s@]+@[^\s@]+\.[^\s@]+$` accepts), the record written back to
    browser storage, the comma-separated skills field and the avatar's initials. */
module Profile {
  import opened Common
  import opened Text

  // ---------------------------------------------------------------- e-mail pattern

  /** `[^\s@]`: neither white space nor an at sign. */
  predicate Plain(c: char)
  {
    !IsSpace(c) && c != '@'
  }

  predicate AllPlain(s: string)
  {
    forall i :: 0 <= i < |s| ==> Plain(s[i])
  }

  /** The states of an automaton for the pattern: before the first character, in the
      local part, just after the at sign, in the domain before a usable dot, just after
      one, past it with text after the dot (accepting), and rejected. */
  datatype EmailState = Start | Local | AtSign | Domain | Dot | Accept | Dead

  function Step(q: EmailState, c: char): EmailState
  {
    if IsSpace(c) then Dead
    else
      match q
      case Start => if c == '@' then Dead else Local
      case Local => if c == '@' then AtSign else Local
      case AtSign => if c == '@' then Dead else Domain
      case Domain => if c == '@' then Dead else if c == '.' then Dot else Domain
      case Dot => if c == '@' then Dead else Accept
      case Accept => if c == '@' then Dead else Accept
      case Dead => Dead
  }

  /** The state reached from `q` after reading `s`. */
  function Run(q: EmailState, s: string): EmailState
    decreases |s|
  {
    if |s| == 0 then q else Run(Step(q, s[0]), s[1..])
  }

  /** `/^[^\s@]+@[^\s@]+\.[^\s@]+$/.test(email)`. */
  predicate MatchesEmail(email: string)
  {
    Run(Start, email) == Accept
  }

  /** A domain the pattern accepts after the at sign: no white space or at sign, and a dot
      that is neither its first nor its last character. */
  ghost predicate DomainOk(d: string)
  {
    AllPlain(d) && exists k :: 1 <= k < |d| - 1 && d[k] == '.'
  }

  /** `s` splits at position `a` into a local part without white space or at signs, the
      at sign, and an acceptable domain. */
  ghost predicate SplitsAt(s: string, a: int)
  {
    0 <= a < |s| && s[a] == '@' && AllPlain(s[..a]) && DomainOk(s[a + 1..])
  }

  /** The shape of an accepted address: a non-empty local part and a domain, both without
      white space or at signs, joined by the only at sign, the domain as above. */
  ghost predicate EmailShape(s: string)
  {
    exists a :: 0 < a && SplitsAt(s, a)
  }

  /** A text is plain exactly when its first character and the rest are. */
  lemma AllPlainCons(c: char, u: string)
    ensures AllPlain([c] + u) <==> Plain(c) && AllPlain(u)
  {
    var w := [c] + u;
    assert w[0] == c;
    assert forall i :: 0 <= i < |u| ==> w[i + 1] == u[i];
    if Plain(c) && AllPlain(u) {
      forall i | 0 <= i < |w|
        ensures Plain(w[i])
      {
        if i > 0 {
          assert w[i] == u[i - 1];
        }
      }
    }
  }

  /** Splitting after the first character is splitting the rest one position earlier. */
  lemma SplitsAtShift(s: string, a: int)
    requires |s| > 0 && a >= 1
    ensures SplitsAt(s, a) <==> Plain(s[0]) && SplitsAt(s[1..], a - 1)
  {
    var t := s[1..];
    if a < |s| {
      assert s[..a] == [s[0]] + t[..a - 1];
      assert s[a + 1..] == t[a - 1 + 1..];
      assert s[a] == t[a - 1];
      AllPlainCons(s[0], t[..a - 1]);
      assert AllPlain(s[..a]) <==> Plain(s[0]) && AllPlain(t[..a - 1]);
    }
  }

  lemma {:induction false} RunDead(s: string)
    ensures Run(Dead, s) == Dead
    decreases |s|
  {
    if |s| > 0 {
      RunDead(s[1..]);
    }
  }

  lemma {:induction false} RunAccept(s: string)
    ensures Run(Accept, s) == Accept <==> AllPlain(s)
    decreases |s|
  {
    if |s| > 0 {
      RunAccept(s[1..]);
      RunDead(s[1..]);
      assert AllPlain(s) <==> Plain(s[0]) && AllPlain(s[1..]);
    }
  }

  lemma RunDot(s: string)
    ensures Run(Dot, s) == Accept <==> |s| >= 1 && AllPlain(s)
  {
    if |s| > 0 {
      RunAccept(s[1..]);
      RunDead(s[1..]);
      assert AllPlain(s) <==> Plain(s[0]) && AllPlain(s[1..]);
    }
  }

  lemma {:induction false} RunDomain(s: string)
    ensures Run(Domain, s) == Accept <==> AllPlain(s) && exists k :: 0 <= k < |s| - 1 && s[k] == '.'
    decreases |s|
  {
    if |s| > 0 {
      var t := s[1..];
      assert AllPlain(s) <==> Plain(s[0]) && AllPlain(t);
      RunDead(t);
      if Plain(s[0]) {
        if s[0] == '.' {
          RunDot(t);
          if |s| >= 2 {
            assert 0 < |s| - 1 && s[0] == '.';
          }
        } else {
          RunDomain(t);
          if exists k :: 0 <= k < |s| - 1 && s[k] == '.' {
            var k :| 0 <= k < |s| - 1 && s[k] == '.';
            assert 0 <= k - 1 < |t| - 1 && t[k - 1] == '.';
          }
          if exists k :: 0 <= k < |t| - 1 && t[k] == '.' {
            var k :| 0 <= k < |t| - 1 && t[k] == '.';
            assert s[k + 1] == '.';
          }
        }
      }
    }
  }

  lemma RunAtSign(s: string)
    ensures Run(AtSign, s) == Accept <==> DomainOk(s)
  {
    if |s| > 0 {
      var t := s[1..];
      assert AllPlain(s) <==> Plain(s[0]) && AllPlain(t);
      RunDead(t);
      RunDomain(t);
      if exists k :: 1 <= k < |s| - 1 && s[k] == '.' {
        var k :| 1 <= k < |s| - 1 && s[k] == '.';
        assert 0 <= k - 1 < |t| - 1 && t[k - 1] == '.';
      }
      if exists k :: 0 <= k < |t| - 1 && t[k] == '.' {
        var k :| 0 <= k < |t| - 1 && t[k] == '.';
        assert s[k + 1] == '.';
      }
    }
  }

  lemma {:induction false} RunLocal(s: string)
    ensures Run(Local, s) == Accept <==> exists a :: SplitsAt(s, a)
    decreases |s|
  {
    if |s| > 0 {
      var t := s[1..];
      RunDead(t);
      if exists a :: SplitsAt(s, a) {
        var a :| SplitsAt(s, a);
        if a > 0 {
          SplitsAtShift(s, a);
        }
      }
      if s[0] == '@' {
        RunAtSign(t);
        assert SplitsAt(s, 0) <==> DomainOk(t);
      } else if !IsSpace(s[0]) {
        RunLocal(t);
        if exists b :: SplitsAt(t, b) {
          var b :| SplitsAt(t, b);
          SplitsAtShift(s, b + 1);
        }
      }
    }
  }

  /** The automaton accepts exactly the addresses of the declared shape. */
  lemma MatchesEmailIffShape(s: string)
    ensures MatchesEmail(s) <==> EmailShape(s)
  {
    if |s| > 0 {
      var t := s[1..];
      RunDead(t);
      if EmailShape(s) {
        var a :| 0 < a && SplitsAt(s, a);
        SplitsAtShift(s, a);
      }
      if Plain(s[0]) {
        RunLocal(t);
        if exists b :: SplitsAt(t, b) {
          var b :| SplitsAt(t, b);
          SplitsAtShift(s, b + 1);
        }
      }
    }
  }

  /** An accepted address has no white space and exactly one at sign, with text before it. */
  lemma AcceptedAddressHasOneAtSign(s: string)
    requires MatchesEmail(s)
    ensures forall i :: 0 <= i < |s| ==> !IsSpace(s[i])
    ensures exists a :: 0 < a < |s| && s[a] == '@' && forall i :: 0 <= i < |s| && s[i] == '@' ==> i == a
  {
    MatchesEmailIffShape(s);
    var a :| 0 < a && SplitsAt(s, a);
    forall i | 0 <= i < |s|
      ensures !IsSpace(s[i]) && (s[i] == '@' ==> i == a)
    {
      if i < a {
        assert s[i] == s[..a][i];
      } else if i > a {
        assert s[i] == s[a + 1..][i - a - 1];
      }
    }
  }

  /** A plain non-empty local part, an at sign and an acceptable domain make an accepted
      address. */
  lemma JoinedAddressAccepted(local: string, domain: string)
    requires |local| > 0 && AllPlain(local) && DomainOk(domain)
    ensures MatchesEmail(local + "@" + domain)
  {
    var s := local + "@" + domain;
    assert s[..|local|] == local && s[|local| + 1..] == domain;
    assert SplitsAt(s, |local|);
    MatchesEmailIffShape(s);
  }

  /** The address the profile starts with is accepted. */
  lemma StoredAddressAccepted()
    ensures MatchesEmail("john.doe" + "@" + "example.com")
  {
    assert "example.com"[7] == '.';
    JoinedAddressAccepted("john.doe", "example.com");
  }

  /** An address without a dot after the at sign is rejected. */
  lemma NoDotRejected()
    ensures !MatchesEmail("a@b")
  {
    MatchesEmailIffShape("a@b");
  }

  /** A dot right after the at sign does not count. */
  lemma LeadingDotRejected()
    ensures !MatchesEmail("a@.b")
  {
    MatchesEmailIffShape("a@.b");
  }

  /** A space anywhere is rejected. */
  lemma SpaceRejected()
    ensures !MatchesEmail("a b@c.d")
  {
    var s := "a b@c.d";
    MatchesEmailIffShape(s);
  }

  // ---------------------------------------------------------------- saving

  /** The two alerts the save button can raise. */
  datatype SaveAlert = NameRequired | InvalidEmail

  function AlertText(a: SaveAlert): string
  {
    match a
    case NameRequired => "Name cannot be empty"
    case InvalidEmail => "Please enter a valid email address"
  }

  datatype SaveOutcome = Rejected(alert: SaveAlert) | Saved(stored: map<string, string>)

  /** The stored user record after a save: the new name and address, the other entries kept. */
  function StoreProfile(stored: map<string, string>, name: string, email: string): (r: map<string, string>)
    ensures r.Keys == stored.Keys + {"name", "email"}
    ensures r["name"] == name && r["email"] == email
    ensures forall k | k in stored && k != "name" && k != "email" :: r[k] == stored[k]
  {
    stored["name" := name]["email" := email]
  }

  /** The save button: the name must not be blank, then the address must not be blank and
      must match the pattern; on success the stored user record gets the new name and
      address and keeps its other entries. */
  function SaveProfile(name: string, email: string, stored: map<string, string>): (r: SaveOutcome)
    ensures r == Rejected(NameRequired) <==> AllSpace(name)
    ensures r == Rejected(InvalidEmail) <==> !AllSpace(name) && !MatchesEmail(email)
    ensures r.Saved? <==> !AllSpace(name) && MatchesEmail(email)
    ensures r.Saved? ==> r.stored == StoreProfile(stored, name, email)
  {
    if Trim(name) == "" then Rejected(NameRequired)
    else if Trim(email) == "" then
      BlankAddressNeverMatches(email);
      Rejected(InvalidEmail)
    else if !MatchesEmail(email) then Rejected(InvalidEmail)
    else Saved(StoreProfile(stored, name, email))
  }

  /** The blank-address check adds nothing to the pattern: a blank address never matches. */
  lemma BlankAddressNeverMatches(email: string)
    requires AllSpace(email)
    ensures !MatchesEmail(email)
  {
    if MatchesEmail(email) {
      AcceptedAddressHasOneAtSign(email);
    }
  }

  /** Saving again with the same values stores the same record. */
  lemma SaveIsIdempotent(name: string, email: string, stored: map<string, string>)
    requires SaveProfile(name, email, stored).Saved?
    ensures SaveProfile(name, email, SaveProfile(name, email, stored).stored) == SaveProfile(name, email, stored)
  {
  }

  // ---------------------------------------------------------------- skills

  function TrimAll(parts: seq<string>): (r: seq<string>)
    ensures |r| == |parts| && forall i :: 0 <= i < |r| ==> r[i] == Trim(parts[i])
  {
    seq(|parts|, i requires 0 <= i < |parts| => Trim(parts[i]))
  }

  function NonEmpty(): string -> bool
  {
    (s: string) => s != ""
  }

  /** A skill as the parser leaves it: not empty, no comma, no white space at either end. */
  predicate CleanSkill(s: string)
  {
    |s| > 0 && ',' !in s && !IsSpace(s[0]) && !IsSpace(s[|s| - 1])
  }

  /** The skills field read back: split at commas, each piece trimmed, empty pieces
      dropped. */
  function ParseSkills(text: string): (r: seq<string>)
    ensures forall i :: 0 <= i < |r| ==> CleanSkill(r[i])
  {
    var pieces := Split(text, ',');
    var r := Filter(TrimAll(pieces), NonEmpty());
    forall i | 0 <= i < |r|
      ensures CleanSkill(r[i])
    {
      assert r[i] in TrimAll(pieces);
      var j :| 0 <= j < |pieces| && TrimAll(pieces)[j] == r[i];
      TrimIsInfix(pieces[j]);
      assert ',' !in pieces[j];
    }
    r
  }

  /** The skills field shows the list joined by ", ". */
  function ShowSkills(skills: seq<string>): string
  {
    Join(skills, ", ")
  }

  /** A list of clean skills survives being shown and read back. */
  lemma SkillsRoundTrip(skills: seq<string>)
    requires forall i :: 0 <= i < |skills| ==> CleanSkill(skills[i])
    ensures ParseSkills(ShowSkills(skills)) == skills
  {
    if |skills| == 0 {
      assert Split("", ',') == [""];
      assert TrimAll([""]) == [""];
    } else {
      SplitShown(skills);
      TrimPaddedPieces(skills);
      FilterKeepsAll(skills, NonEmpty());
    }
  }

  /** Trimming the padded pieces gives the skills back. */
  lemma TrimPaddedPieces(skills: seq<string>)
    requires |skills| > 0
    requires forall i :: 0 <= i < |skills| ==> CleanSkill(skills[i])
    ensures TrimAll(Padded(skills)) == skills
  {
    var padded := Padded(skills);
    forall i | 0 <= i < |padded|
      ensures Trim(padded[i]) == skills[i]
    {
      if i == 0 {
        TrimOfTrimmed(skills[0]);
      } else {
        TrimPadded(" ", skills[i], "");
        assert " " + skills[i] + "" == padded[i];
      }
    }
  }

  /** The pieces a ", "-joined list splits into at its commas: each skill after the first
      keeps the space that followed the comma. */
  function Padded(skills: seq<string>): (r: seq<string>)
    requires |skills| > 0
    ensures |r| == |skills| && r[0] == skills[0]
    ensures forall i :: 1 <= i < |r| ==> r[i] == " " + skills[i]
  {
    seq(|skills|, i requires 0 <= i < |skills| => if i == 0 then skills[0] else " " + skills[i])
  }

  /** Splitting a ", "-joined list at its commas gives the padded pieces. */
  lemma {:induction false} SplitShown(skills: seq<string>)
    requires |skills| > 0
    requires forall i :: 0 <= i < |skills| ==> ',' !in skills[i]
    ensures Split(Join(skills, ", "), ',') == Padded(skills)
    decreases |skills|
  {
    if |skills| > 1 {
      var rest := skills[1..];
      var x := Join(rest, ", ");
      SplitShown(rest);
      assert Join(skills, ", ") == skills[0] + [','] + (" " + x);
      SplitAfterPiece(skills[0], " " + x, ',');
      SplitAfterSpace(x);
      PaddedStep(skills);
    } else {
      SplitNoSeparator(skills[0], ',');
    }
  }

  /** A leading space joins the first piece. */
  lemma SplitAfterSpace(x: string)
    ensures Split(" " + x, ',') == [" " + Split(x, ',')[0]] + Split(x, ',')[1..]
  {
    assert (" " + x)[1..] == x;
  }

  lemma PaddedStep(skills: seq<string>)
    requires |skills| > 1
    ensures Padded(skills) == [skills[0]] + [" " + Padded(skills[1..])[0]] + Padded(skills[1..])[1..]
  {
  }

  // ---------------------------------------------------------------- initials

  /** The first character of each piece; an empty piece contributes nothing, as
      `undefined` joins to nothing. */
  function FirstChars(pieces: seq<string>): (r: string)
    ensures |r| <= |pieces|
    ensures forall c :: c in r ==> exists i :: 0 <= i < |pieces| && |pieces[i]| > 0 && pieces[i][0] == c
  {
    if |pieces| == 0 then ""
    else
      var rest := FirstChars(pieces[1..]);
      assert forall c :: c in rest ==> exists i :: 1 <= i < |pieces| && |pieces[i]| > 0 && pieces[i][0] == c by {
        forall c | c in rest
          ensures exists i :: 1 <= i < |pieces| && |pieces[i]| > 0 && pieces[i][0] == c
        {
          var j :| 0 <= j < |pieces[1..]| && |pieces[1..][j]| > 0 && pieces[1..][j][0] == c;
          assert pieces[j + 1] == pieces[1..][j];
        }
      }
      (if |pieces[0]| > 0 then [pieces[0][0]] else "") + rest
  }

  /** The avatar's initials: the first character of each space-separated part of the name. */
  function Initials(name: string): (r: string)
    ensures ' ' !in r
  {
    FirstChars(Split(name, ' '))
  }

  /** For a name made of words joined by single or repeated spaces, the initials are the
      words' first letters: the empty words repeated spaces leave contribute nothing. */
  lemma InitialsOfWords(words: seq<string>)
    requires |words| > 0
    requires forall i :: 0 <= i < |words| ==> ' ' !in words[i]
    ensures Initials(Join(words, " ")) == FirstChars(words)
  {
    SplitJoinRoundTrip(words, ' ');
  }

  /** Only the non-empty words count. */
  lemma {:induction false} FirstCharsSkipsEmpty(words: seq<string>)
    ensures FirstChars(words) == FirstChars(Filter(words, NonEmpty()))
    decreases |words|
  {
    if |words| > 0 {
      FirstCharsSkipsEmpty(words[1..]);
      var f := Filter(words[1..], NonEmpty());
      if words[0] != "" {
        assert Filter(words, NonEmpty()) == [words[0]] + f;
        assert ([words[0]] + f)[1..] == f;
      } else {
        assert Filter(words, NonEmpty()) == f;
      }
    }
  }

  /** Of non-empty words, the initials are one first letter per word, in order. */
  lemma {:induction false} FirstCharsOfWords(words: seq<string>)
    requires forall i :: 0 <= i < |words| ==> |words[i]| > 0
    ensures |FirstChars(words)| == |words|
    ensures forall i :: 0 <= i < |words| ==> FirstChars(words)[i] == words[i][0]
    decreases |words|
  {
    if |words| > 0 {
      FirstCharsOfWords(words[1..]);
    }
  }

  /** A first and a last name joined by one space, as in "John Doe", or by two, as in
      "John  Doe", give the same two initials. */
  lemma InitialsOfTwoNames(first: string, last: string)
    requires |first| > 0 && |last| > 0 && ' ' !in first && ' ' !in last
    ensures Initials(Join([first, last], " ")) == [first[0], last[0]]
    ensures Initials(Join([first, "", last], " ")) == [first[0], last[0]]
  {
    var one: seq<string> := [last];
    assert one[1..] == [];
    var gap: seq<string> := ["", last];
    assert gap[1..] == one;
    var two: seq<string> := [first, last];
    assert two[1..] == one;
    InitialsOfWords(two);
    var three: seq<string> := [first, "", last];
    assert three[1..] == gap;
    InitialsOfWords(three);
  }
}
