/** String helpers the handlers use: case folding, whitespace trimming,
    last-index search, prefix tests and the e-mail domain extraction built from
    them. Case folding and whitespace are ASCII only. */
module Text {
  import opened Envelope

  predicate IsSpace(c: char) {
    c == ' ' || c == '\t' || c == '\n' || c == '\r' || c == '\U{000B}' || c == '\U{000C}'
  }

  predicate IsUpper(c: char) {
    'A' <= c <= 'Z'
  }

  function Lower(c: char): (d: char)
    ensures !IsUpper(d)
    ensures !IsUpper(c) ==> d == c
    ensures IsSpace(c) ==> d == c
  {
    if IsUpper(c) then (c as int + 32) as char else c
  }

  predicate NoUpper(s: string) {
    forall i :: 0 <= i < |s| ==> !IsUpper(s[i])
  }

  /** strings.ToLower */
  function ToLower(s: string): (r: string)
    ensures |r| == |s|
    ensures forall i :: 0 <= i < |s| ==> r[i] == Lower(s[i])
    ensures NoUpper(r)
    ensures NoUpper(s) ==> r == s
  {
    seq(|s|, i requires 0 <= i < |s| => Lower(s[i]))
  }

  /** Drops the leading whitespace: what is left is a suffix of `s` that does
      not start with a space, and everything dropped was a space. */
  function TrimLeft(s: string): (r: string)
    ensures |r| <= |s| && r == s[|s| - |r|..]
    ensures forall i :: 0 <= i < |s| - |r| ==> IsSpace(s[i])
    ensures r == [] || !IsSpace(r[0])
  {
    if s != [] && IsSpace(s[0]) then TrimLeft(s[1..]) else s
  }

  /** Drops the trailing whitespace: what is left is a prefix of `s` that does
      not end with a space, and everything dropped was a space. */
  function TrimRight(s: string): (r: string)
    ensures |r| <= |s| && r == s[..|r|]
    ensures forall i :: |r| <= i < |s| ==> IsSpace(s[i])
    ensures r == [] || !IsSpace(r[|r| - 1])
  {
    if s != [] && IsSpace(s[|s| - 1]) then TrimRight(s[..|s| - 1]) else s
  }

  predicate Trimmed(s: string) {
    s == [] || (!IsSpace(s[0]) && !IsSpace(s[|s| - 1]))
  }

  /** strings.TrimSpace */
  function TrimSpace(s: string): (r: string)
    ensures |r| <= |s|
    ensures Trimmed(r)
    ensures Trimmed(s) ==> r == s
    ensures NoUpper(s) ==> NoUpper(r)
  {
    var l := TrimLeft(s);
    var r := TrimRight(l);
    TrimmedBothEnds(l, r);
    TrimKeepsTrimmed(s, l, r);
    TrimKeepsNoUpper(s, l, r);
    r
  }

  lemma TrimmedBothEnds(l: string, r: string)
    requires l == [] || !IsSpace(l[0])
    requires r == TrimRight(l)
    ensures Trimmed(r)
  {
    assert r != [] ==> r[0] == l[0];
  }

  lemma TrimKeepsTrimmed(s: string, l: string, r: string)
    requires l == TrimLeft(s) && r == TrimRight(l)
    ensures Trimmed(s) ==> r == s
  {
  }

  lemma TrimKeepsNoUpper(s: string, l: string, r: string)
    requires l == TrimLeft(s) && r == TrimRight(l)
    ensures NoUpper(s) ==> NoUpper(r)
  {
    if NoUpper(s) {
      forall i | 0 <= i < |r| ensures !IsUpper(r[i]) {
        assert r[i] == l[i];
        assert l[i] == s[|s| - |l| + i];
      }
    }
  }

  /** strings.TrimSpace(strings.ToLower(s)): the normalisation applied to
      e-mail addresses and organisation domains. */
  function Normalize(s: string): (r: string)
    ensures Trimmed(r) && NoUpper(r)
  {
    TrimSpace(ToLower(s))
  }

  /** Normalising twice is normalising once, so a stored domain can be looked
      up or removed with any input that normalises to it. */
  lemma NormalizeIdempotent(s: string)
    ensures Normalize(Normalize(s)) == Normalize(s)
  {
    var n := Normalize(s);
    assert ToLower(n) == n;
    assert TrimSpace(n) == n;
  }

  /** Inputs that differ only in letter case normalise alike. */
  lemma NormalizeIgnoresCase(s: string)
    ensures Normalize(ToLower(s)) == Normalize(s)
  {
    assert ToLower(ToLower(s)) == ToLower(s);
  }

  /** strings.LastIndex for a single character: -1 when absent. */
  function LastIndexOf(s: string, c: char): (r: int)
    ensures -1 <= r < |s|
    ensures r >= 0 ==> s[r] == c
    ensures forall j :: r < j < |s| ==> s[j] != c
  {
    if s == [] then -1
    else if s[|s| - 1] == c then |s| - 1
    else LastIndexOf(s[..|s| - 1], c)
  }

  predicate HasPrefix(s: string, prefix: string) {
    |prefix| <= |s| && s[..|prefix|] == prefix
  }

  /** strings.TrimPrefix: removes one leading occurrence of `prefix`, if any. */
  function TrimPrefix(s: string, prefix: string): (r: string)
    ensures HasPrefix(s, prefix) ==> s == prefix + r
    ensures !HasPrefix(s, prefix) ==> r == s
  {
    if HasPrefix(s, prefix) then s[|prefix|..] else s
  }

  /** The domain of an e-mail address as the auto-membership helpers take it
      (cmd/contacts.go:430-439, internal/organization/organization.go:267-276):
      the address is lower-cased and trimmed, and the domain is the text after
      its last '@'. An empty address, one without '@' and one ending in '@'
      have no domain. */
  function EmailDomain(email: string): (r: Option<string>)
    ensures var e := Normalize(email);
      r.None? <==> (e == [] || '@' !in e || e[|e| - 1] == '@')
    ensures var e := Normalize(email);
      r.Some? ==> r.value != [] && '@' !in r.value && |r.value| < |e| && e == e[..|e| - |r.value| - 1] + "@" + r.value
  {
    DomainAfterLastAt(Normalize(email))
  }

  /** The text after the last '@' of an already normalised address, when there
      is such an '@' and text after it. */
  function DomainAfterLastAt(e: string): (r: Option<string>)
    ensures r.None? <==> (e == [] || '@' !in e || e[|e| - 1] == '@')
    ensures r.Some? ==>
      && r.value != []
      && '@' !in r.value
      && |r.value| < |e|
      && e == e[..|e| - |r.value| - 1] + "@" + r.value
  {
    var at := LastIndexOf(e, '@');
    if e == [] || at < 0 || at == |e| - 1 then
      assert at < 0 ==> '@' !in e;
      None
    else
      SplitAt(e, at);
      Some(e[at + 1..])
  }

  lemma SplitAt(e: string, at: int)
    requires 0 <= at < |e| && e[at] == '@'
    requires forall j :: at < j < |e| ==> e[j] != '@'
    ensures '@' !in e[at + 1..]
    ensures e == e[..|e| - |e[at + 1..]| - 1] + "@" + e[at + 1..]
  {
    assert e == e[..at] + [e[at]] + e[at + 1..];
  }
}
