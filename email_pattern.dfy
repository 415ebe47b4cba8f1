/**
 * The default `validationReg` pattern of the field validator and the
 * `validateRegExp` test that applies it to the field's value.
 *
 * The pattern is anchored at both ends and made of a local part, an `@`
 * and a domain. Its case-insensitive flag changes nothing: every letter
 * class already holds both cases and the negated class holds no letter.
 * Characters are Unicode scalar values; JavaScript matches UTF-16 code
 * units, and since every class here excludes only BMP characters or admits
 * only ASCII, a character outside the BMP (two code units) is admitted by a
 * class exactly when each of its code units is.
 *
 * Two descriptions are given and proved equal: reference predicates that
 * follow the pattern's own shape (existentials over the ways to cut the
 * input), and `Matches`, which finds the one cut that can work and checks it.
 */
module EmailPattern {
  import opened Optional
  import opened Separated

  // ---------------------------------------------------------------------------
  // Character classes

  /** JavaScript's `\s`: the WhiteSpace and LineTerminator code points. */
  predicate IsWhitespace(c: char) {
    c == '\t' || c == '\n' || c == '\U{000B}' || c == '\U{000C}' || c == '\r' ||
    c == ' ' || c == '\U{00A0}' || c == '\U{1680}' || ('\U{2000}' <= c <= '\U{200A}') ||
    c == '\U{2028}' || c == '\U{2029}' || c == '\U{202F}' || c == '\U{205F}' ||
    c == '\U{3000}' || c == '\U{FEFF}'
  }

  /** The characters that `.` does not match (no `s` flag). */
  predicate IsLineTerminator(c: char) {
    c == '\n' || c == '\r' || c == '\U{2028}' || c == '\U{2029}'
  }

  /** `[^<>()[\]\\.,;:\s@\"]`: a character allowed in an unquoted local atom. */
  predicate IsAtomChar(c: char) {
    c !in "<>()[]\\.,;:@\"" && !IsWhitespace(c)
  }

  predicate IsDigit(c: char) { '0' <= c <= '9' }

  predicate IsLetter(c: char) { 'a' <= c <= 'z' || 'A' <= c <= 'Z' }

  /** `[a-zA-Z\-0-9]`: a character of a domain label. */
  predicate IsLabelChar(c: char) { IsLetter(c) || IsDigit(c) || c == '-' }

  // ---------------------------------------------------------------------------
  // The pieces the pattern repeats

  /** `[^<>()[\]\\.,;:\s@\"]+` */
  predicate IsAtom(a: string) {
    |a| > 0 && forall i :: 0 <= i < |a| ==> IsAtomChar(a[i])
  }

  /** `[0-9]{1,3}`: one part of a bracketed address (no range check). */
  predicate IsOctetText(p: string) {
    1 <= |p| <= 3 && forall i :: 0 <= i < |p| ==> IsDigit(p[i])
  }

  /** `[a-zA-Z\-0-9]+` */
  predicate IsLabel(p: string) {
    |p| > 0 && forall i :: 0 <= i < |p| ==> IsLabelChar(p[i])
  }

  /** `[a-zA-Z]{2,}`: the final, alphabetic label. */
  predicate IsTld(p: string) {
    |p| >= 2 && forall i :: 0 <= i < |p| ==> IsLetter(p[i])
  }

  /** `"` + `.+` + `"`: a quoted local part; its body may hold `"` and `@`. */
  predicate IsQuoted(s: string) {
    |s| >= 3 && s[0] == '"' && s[|s| - 1] == '"' &&
    forall i :: 1 <= i < |s| - 1 ==> !IsLineTerminator(s[i])
  }

  // ---------------------------------------------------------------------------
  // Reference definitions, in the shape of the pattern

  /** `atom(\.atom)*` */
  ghost predicate DotAtomForm(s: string) {
    exists atoms: seq<string> ::
      |atoms| > 0 && (forall k :: 0 <= k < |atoms| ==> IsAtom(atoms[k])) && Join(atoms, '.') == s
  }

  /** `\[d.d.d.d\]` with `d` one to three digits. */
  ghost predicate QuadForm(s: string) {
    exists octets: seq<string> ::
      |octets| == 4 && (forall k :: 0 <= k < 4 ==> IsOctetText(octets[k])) &&
      s == ['['] + Join(octets, '.') + [']']
  }

  /** `(label\.)+tld`: one or more labels, then the alphabetic final label. */
  ghost predicate HostForm(s: string) {
    exists labels: seq<string> ::
      |labels| >= 2 && (forall k :: 0 <= k < |labels| - 1 ==> IsLabel(labels[k])) &&
      IsTld(labels[|labels| - 1]) && Join(labels, '.') == s
  }

  ghost predicate LocalForm(s: string) { DotAtomForm(s) || IsQuoted(s) }

  ghost predicate DomainForm(s: string) { QuadForm(s) || HostForm(s) }

  /** The pattern accepts `s`: some `@` in it has a local part before and a domain after. */
  ghost predicate Accepted(s: string) {
    exists i :: 0 <= i < |s| && s[i] == '@' && LocalForm(s[..i]) && DomainForm(s[i + 1..])
  }

  // ---------------------------------------------------------------------------
  // The matcher

  /** The position of the last `c` in `s`, if any. */
  function LastIndexOf(s: string, c: char): (r: Option<nat>)
    ensures r.None? <==> c !in s
    ensures r.Some? ==> r.value < |s| && s[r.value] == c && c !in s[r.value + 1..]
  {
    if s == [] then None
    else if s[|s| - 1] == c then Some(|s| - 1)
    else
      var r := LastIndexOf(s[..|s| - 1], c);
      assert s == s[..|s| - 1] + [s[|s| - 1]];
      if r.Some? then
        assert s[r.value + 1..] == s[..|s| - 1][r.value + 1..] + [s[|s| - 1]];
        r
      else r
  }

  predicate IsDotAtom(s: string) {
    var atoms := Split(s, '.');
    forall k :: 0 <= k < |atoms| ==> IsAtom(atoms[k])
  }

  predicate IsQuad(s: string) {
    |s| >= 2 && s[0] == '[' && s[|s| - 1] == ']' &&
    var octets := Split(s[1..|s| - 1], '.');
    |octets| == 4 && forall k :: 0 <= k < 4 ==> IsOctetText(octets[k])
  }

  predicate IsHost(s: string) {
    var labels := Split(s, '.');
    |labels| >= 2 && (forall k :: 0 <= k < |labels| - 1 ==> IsLabel(labels[k])) &&
    IsTld(labels[|labels| - 1])
  }

  /** `validationReg.test(s)`: the cut is at the last `@`, since no domain holds one. */
  predicate Matches(s: string): (r: bool)
    ensures r ==> LastIndexOf(s, '@').Some? && 0 < LastIndexOf(s, '@').value
    ensures r ==> LastIndexOf(s, '@').Some? && LastIndexOf(s, '@').value < |s| - 1
  {
    match LastIndexOf(s, '@')
    case None => false
    case Some(i) =>
      assert i == 0 ==> s[..i] == [] && Split(s[..i], '.') == [[]] && !IsAtom(Split(s[..i], '.')[0]);
      assert i + 1 == |s| ==> s[i + 1..] == [] && Split(s[i + 1..], '.') == [[]];
      (IsDotAtom(s[..i]) || IsQuoted(s[..i])) && (IsQuad(s[i + 1..]) || IsHost(s[i + 1..]))
  }

  // ---------------------------------------------------------------------------
  // The matcher agrees with the reference definitions

  lemma DotAtomCorrect(s: string)
    ensures IsDotAtom(s) <==> DotAtomForm(s)
  {
    if IsDotAtom(s) { DotAtomSound(s); }
    if DotAtomForm(s) { DotAtomComplete(s); }
  }

  lemma DotAtomSound(s: string)
    requires IsDotAtom(s)
    ensures DotAtomForm(s)
  {
    JoinOfSplit(s, '.');
    assert Join(Split(s, '.'), '.') == s;
  }

  lemma DotAtomComplete(s: string)
    requires DotAtomForm(s)
    ensures IsDotAtom(s)
  {
    var atoms: seq<string> :|
      |atoms| > 0 && (forall k :: 0 <= k < |atoms| ==> IsAtom(atoms[k])) && Join(atoms, '.') == s;
    forall k | 0 <= k < |atoms| ensures '.' !in atoms[k] {
      assert IsAtom(atoms[k]);
    }
    SplitOfJoin(atoms, '.');
  }

  lemma QuadCorrect(s: string)
    ensures IsQuad(s) <==> QuadForm(s)
  {
    if IsQuad(s) { QuadSound(s); }
    if QuadForm(s) { QuadComplete(s); }
  }

  lemma QuadSound(s: string)
    requires IsQuad(s)
    ensures QuadForm(s)
  {
    var inner := s[1..|s| - 1];
    JoinOfSplit(inner, '.');
    assert s == ['['] + Join(Split(inner, '.'), '.') + [']'];
  }

  lemma QuadComplete(s: string)
    requires QuadForm(s)
    ensures IsQuad(s)
  {
    var octets: seq<string> :|
      |octets| == 4 && (forall k :: 0 <= k < 4 ==> IsOctetText(octets[k])) &&
      s == ['['] + Join(octets, '.') + [']'];
    forall k | 0 <= k < 4 ensures '.' !in octets[k] {
      assert IsOctetText(octets[k]);
    }
    SplitOfJoin(octets, '.');
    assert s[1..|s| - 1] == Join(octets, '.');
  }

  lemma HostCorrect(s: string)
    ensures IsHost(s) <==> HostForm(s)
  {
    if IsHost(s) { HostSound(s); }
    if HostForm(s) { HostComplete(s); }
  }

  lemma HostSound(s: string)
    requires IsHost(s)
    ensures HostForm(s)
  {
    JoinOfSplit(s, '.');
    HostFormOf(Split(s, '.'));
  }

  /** Labels the matcher accepts join to a host. */
  lemma HostFormOf(labels: seq<string>)
    requires |labels| >= 2 && forall k :: 0 <= k < |labels| - 1 ==> IsLabel(labels[k])
    requires IsTld(labels[|labels| - 1])
    ensures HostForm(Join(labels, '.'))
  {
  }

  lemma HostComplete(s: string)
    requires HostForm(s)
    ensures IsHost(s)
  {
    var labels: seq<string> :|
      |labels| >= 2 && (forall k :: 0 <= k < |labels| - 1 ==> IsLabel(labels[k])) &&
      IsTld(labels[|labels| - 1]) && Join(labels, '.') == s;
    forall k | 0 <= k < |labels| ensures '.' !in labels[k] {
      if k < |labels| - 1 { assert IsLabel(labels[k]); } else { assert IsTld(labels[k]); }
    }
    SplitOfJoin(labels, '.');
  }

  /** A domain never contains `@`, so only the last `@` can be the cut. */
  lemma DomainHasNoAt(s: string)
    requires DomainForm(s)
    ensures '@' !in s
  {
    if QuadForm(s) {
      var octets: seq<string> :|
        |octets| == 4 && (forall k :: 0 <= k < 4 ==> IsOctetText(octets[k])) &&
        s == ['['] + Join(octets, '.') + [']'];
      forall k | 0 <= k < 4 ensures '@' !in octets[k] {
        assert IsOctetText(octets[k]);
      }
      JoinAvoids(octets, '.', '@');
    } else {
      var labels: seq<string> :|
        |labels| >= 2 && (forall k :: 0 <= k < |labels| - 1 ==> IsLabel(labels[k])) &&
        IsTld(labels[|labels| - 1]) && Join(labels, '.') == s;
      forall k | 0 <= k < |labels| ensures '@' !in labels[k] {
        if k < |labels| - 1 { assert IsLabel(labels[k]); } else { assert IsTld(labels[k]); }
      }
      JoinAvoids(labels, '.', '@');
    }
  }

  /** The last occurrence is the only one with none after it. */
  lemma LastIndexOfUnique(s: string, c: char, j: nat)
    requires j < |s| && s[j] == c && c !in s[j + 1..]
    ensures LastIndexOf(s, c) == Some(j)
  {
  }

  /** `Matches` in terms of the cut it checks. */
  lemma MatchesAt(s: string, j: nat)
    requires LastIndexOf(s, '@') == Some(j)
    ensures Matches(s) <==> (IsDotAtom(s[..j]) || IsQuoted(s[..j])) && (IsQuad(s[j + 1..]) || IsHost(s[j + 1..]))
  {
  }

  lemma MatchesSound(s: string)
    requires Matches(s)
    ensures Accepted(s)
  {
    var i := LastIndexOf(s, '@').value;
    MatchesAt(s, i);
    LocalSound(s[..i]);
    DomainSound(s[i + 1..]);
    AcceptedAt(s, i);
  }

  lemma AcceptedAt(s: string, i: nat)
    requires i < |s| && s[i] == '@' && LocalForm(s[..i]) && DomainForm(s[i + 1..])
    ensures Accepted(s)
  {
  }

  lemma LocalSound(t: string)
    requires IsDotAtom(t) || IsQuoted(t)
    ensures LocalForm(t)
  {
    if IsDotAtom(t) { DotAtomSound(t); }
  }

  lemma DomainSound(t: string)
    requires IsQuad(t) || IsHost(t)
    ensures DomainForm(t)
  {
    if IsQuad(t) { QuadSound(t); } else { HostSound(t); }
  }

  /** A cut that the pattern accepts is the one the matcher checks. */
  lemma MatchesAtCut(s: string, j: nat)
    requires j < |s| && s[j] == '@' && LocalForm(s[..j]) && DomainForm(s[j + 1..])
    ensures Matches(s)
  {
    DomainHasNoAt(s[j + 1..]);
    LastIndexOfUnique(s, '@', j);
    DotAtomCorrect(s[..j]);
    QuadCorrect(s[j + 1..]);
    HostCorrect(s[j + 1..]);
    MatchesAt(s, j);
  }

  lemma MatchesComplete(s: string)
    requires Accepted(s)
    ensures Matches(s)
  {
    var j :| 0 <= j < |s| && s[j] == '@' && LocalForm(s[..j]) && DomainForm(s[j + 1..]);
    MatchesAtCut(s, j);
  }

  /** The matcher accepts exactly the strings of the pattern's language. */
  lemma MatchesCorrect(s: string)
    ensures Matches(s) <==> Accepted(s)
  {
    if Matches(s) { MatchesSound(s); }
    if Accepted(s) { MatchesComplete(s); }
  }

  // ---------------------------------------------------------------------------
  // Examples

  /** Dotted atoms, `@`, then labels ending in an alphabetic one: always accepted. */
  lemma AcceptsDotAtomAtHost(atoms: seq<string>, labels: seq<string>)
    requires |atoms| > 0 && forall k :: 0 <= k < |atoms| ==> IsAtom(atoms[k])
    requires |labels| >= 2 && forall k :: 0 <= k < |labels| - 1 ==> IsLabel(labels[k])
    requires IsTld(labels[|labels| - 1])
    ensures Matches(Join(atoms, '.') + ['@'] + Join(labels, '.'))
  {
    var local, domain := Join(atoms, '.'), Join(labels, '.');
    var s := local + ['@'] + domain;
    assert s[..|local|] == local && s[|local| + 1..] == domain;
    assert DotAtomForm(local);
    assert HostForm(domain);
    MatchesAtCut(s, |local|);
  }

  /** Dotted atoms, `@`, then a bracketed dotted quad: always accepted. */
  lemma AcceptsDotAtomAtQuad(atoms: seq<string>, octets: seq<string>)
    requires |atoms| > 0 && forall k :: 0 <= k < |atoms| ==> IsAtom(atoms[k])
    requires |octets| == 4 && forall k :: 0 <= k < 4 ==> IsOctetText(octets[k])
    ensures Matches(Join(atoms, '.') + ['@'] + (['['] + Join(octets, '.') + [']']))
  {
    var local, domain := Join(atoms, '.'), ['['] + Join(octets, '.') + [']'];
    var s := local + ['@'] + domain;
    assert s[..|local|] == local && s[|local| + 1..] == domain;
    assert DotAtomForm(local);
    assert QuadForm(domain);
    MatchesAtCut(s, |local|);
  }

  /** `name@gmail.com` is an email. */
  lemma AcceptsPlainAddress()
    ensures Matches("name@gmail.com")
  {
    PlainAddressParts();
    PlainAddressJoin();
    AcceptsDotAtomAtHost(["name"], ["gmail", "com"]);
  }

  lemma PlainAddressParts()
    ensures IsAtom("name") && IsLabel("gmail") && IsTld("com")
  {
  }

  lemma PlainAddressJoin()
    ensures Join(["name"], '.') + ['@'] + Join(["gmail", "com"], '.') == "name@gmail.com"
  {
  }

  /** A quoted local part may itself hold `@`; the cut is still the last `@`. */
  lemma AcceptsQuotedLocalPart()
    ensures Matches("\"a@b\"@c.de")
  {
    var s := "\"a@b\"@c.de";
    assert s[..5] == "\"a@b\"" && s[6..] == "c.de";
    assert IsQuoted(s[..5]);
    assert Join(["c", "de"], '.') == "c.de";
    assert IsLabel("c") && IsTld("de");
    assert HostForm(s[6..]);
    MatchesAtCut(s, 5);
  }

  /** A bracketed address needs one to three digits per part, whatever their value. */
  lemma AcceptsBracketedAddress()
    ensures Matches("x@[1.22.333.999]")
  {
    BracketedAddressParts();
    BracketedAddressJoin();
    AcceptsDotAtomAtQuad(["x"], ["1", "22", "333", "999"]);
  }

  lemma BracketedAddressParts()
    ensures IsAtom("x")
    ensures IsOctetText("1") && IsOctetText("22") && IsOctetText("333") && IsOctetText("999")
  {
  }

  lemma BracketedAddressJoin()
    ensures Join(["x"], '.') + ['@'] + (['['] + Join(["1", "22", "333", "999"], '.') + [']']) == "x@[1.22.333.999]"
  {
  }

  /** No `@`, no email: so `email`, `name` and the empty string are rejected. */
  lemma RejectsWithoutAt(s: string)
    requires '@' !in s
    ensures !Matches(s) && !Accepted(s)
  {
    MatchesCorrect(s);
  }

  /** A domain needs a final alphabetic label after a dot. */
  lemma RejectsMissingTld()
    ensures !Matches("name@gmail")
  {
    var t := "name@gmail";
    assert t[4] == '@' && '@' !in t[5..];
    assert LastIndexOf(t, '@') == Some(4);
    assert t[5..] == "gmail";
    assert Split("gmail", '.') == ["gmail"] by {
      SplitOfJoin(["gmail"], '.');
    }
    assert !IsHost(t[5..]);
  }
}
