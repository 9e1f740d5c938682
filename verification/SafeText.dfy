/**
 Cleaning of text that somebody else wrote.

 A string is a sequence of Unicode scalar values. `Clean` removes what does not belong in
 such text, `Body` also defuses every sequence that could be read as a message delimiter,
 and `Field` reduces a value to one short line.
 */
module SafeText {
  import opened Options

  const MAX_FIELD_RUNES := 96

  // ---------- Character classes ----------

  predicate IsInvisible(c: char) {
    var r := c as int;
    || r == 0x00ad
    || 0x200b <= r <= 0x200f
    || r == 0x2028 || r == 0x2029
    || 0x202a <= r <= 0x202e
    || 0x2060 <= r <= 0x2064
    || 0x2066 <= r <= 0x2069
    || 0xfff9 <= r <= 0xfffb
    || r == 0xfeff
  }

  /** Go's unicode.IsControl: category Cc. */
  predicate IsControl(c: char) {
    var r := c as int;
    r <= 0x1f || 0x7f <= r <= 0x9f
  }

  /** Go's unicode.IsSpace: the White_Space property. */
  predicate IsSpace(c: char) {
    var r := c as int;
    || 0x09 <= r <= 0x0d || r == 0x20 || r == 0x85 || r == 0xa0
    || r == 0x1680 || 0x2000 <= r <= 0x200a
    || r == 0x2028 || r == 0x2029 || r == 0x202f || r == 0x205f || r == 0x3000
  }

  /** The characters `Clean` writes: everything visible, with one kind of space besides the tab. */
  predicate Kept(c: char, keepLines: bool) {
    || c == '\t'
    || (c == '\n' && keepLines)
    || Ordinary(c)
    || c == ' '
  }

  /** Characters that carry what the sender wrote and are never touched. */
  predicate Ordinary(c: char) {
    !IsInvisible(c) && !IsControl(c) && !IsSpace(c)
  }

  predicate AllKept(s: string, keepLines: bool) {
    forall i :: 0 <= i < |s| ==> Kept(s[i], keepLines)
  }

  // ---------- clean ----------

  /** The replacer that turns CR LF and CR into LF before anything else runs. */
  function NormalizeLines(s: string): string {
    if s == "" then ""
    else if s[0] == '\r' then
      "\n" + NormalizeLines(if |s| > 1 && s[1] == '\n' then s[2..] else s[1..])
    else [s[0]] + NormalizeLines(s[1..])
  }

  function CleanChar(c: char, keepLines: bool): string {
    if c == '\n' then (if keepLines then "\n" else " ")
    else if c == '\t' then "\t"
    else if IsInvisible(c) then ""
    else if IsControl(c) then ""
    else if IsSpace(c) then " "
    else [c]
  }

  function CleanChars(s: string, keepLines: bool): string {
    if s == "" then "" else CleanChar(s[0], keepLines) + CleanChars(s[1..], keepLines)
  }

  function Clean(s: string, keepLines: bool): string {
    CleanChars(NormalizeLines(s), keepLines)
  }

  lemma ConcatAssoc(a: string, b: string, c: string)
    ensures (a + b) + c == a + (b + c)
  {
  }

  /** The builder loop of clean, character by character. */
  method CleanLoop(s: string, keepLines: bool) returns (b: string)
    ensures b == Clean(s, keepLines)
  {
    var t := NormalizeLines(s);
    b := "";
    var i := 0;
    while i < |t|
      invariant 0 <= i <= |t|
      invariant b + CleanChars(t[i..], keepLines) == CleanChars(t, keepLines)
    {
      var r := t[i];
      ghost var before, rest := b, CleanChars(t[i + 1..], keepLines);
      assert t[i..][0] == r && t[i..][1..] == t[i + 1..];
      if r == '\n' {
        b := b + (if keepLines then "\n" else " ");
      } else if r == '\t' {
        b := b + "\t";
      } else if IsInvisible(r) {
      } else if IsControl(r) {
      } else if IsSpace(r) {
        b := b + " ";
      } else {
        b := b + [r];
      }
      ConcatAssoc(before, CleanChar(r, keepLines), rest);
      assert b == before + CleanChar(r, keepLines);
      i := i + 1;
    }
    assert t[i..] == "";
  }

  lemma {:induction false} CleanCharsKept(s: string, keepLines: bool)
    ensures AllKept(CleanChars(s, keepLines), keepLines)
  {
    if s != "" {
      CleanCharsKept(s[1..], keepLines);
    }
  }

  /** Whatever came in, only kept characters come out. */
  lemma CleanKeeps(s: string, keepLines: bool)
    ensures AllKept(Clean(s, keepLines), keepLines)
  {
    CleanCharsKept(NormalizeLines(s), keepLines);
  }

  lemma {:induction false} KeptIsFixed(s: string, keepLines: bool)
    requires AllKept(s, keepLines)
    ensures Clean(s, keepLines) == s
  {
    if s != "" {
      assert s == [s[0]] + s[1..];
      KeptIsFixed(s[1..], keepLines);
      assert NormalizeLines(s) == [s[0]] + NormalizeLines(s[1..]);
      assert NormalizeLines(s)[1..] == NormalizeLines(s[1..]);
    }
  }

  /** The texts `Clean` leaves alone are exactly the ones made of kept characters. */
  lemma CleanFixedPoints(s: string, keepLines: bool)
    ensures Clean(s, keepLines) == s <==> AllKept(s, keepLines)
  {
    CleanKeeps(s, keepLines);
    if AllKept(s, keepLines) {
      KeptIsFixed(s, keepLines);
    }
  }

  /** The subsequence of the characters `p` selects. */
  function Select(p: char -> bool, s: string): string {
    if s == "" then "" else (if p(s[0]) then [s[0]] else "") + Select(p, s[1..])
  }

  lemma {:induction false} SelectConcat(p: char -> bool, a: string, b: string)
    ensures Select(p, a + b) == Select(p, a) + Select(p, b)
  {
    if a == "" {
      assert a + b == b;
    } else {
      assert (a + b)[0] == a[0] && (a + b)[1..] == a[1..] + b;
      SelectConcat(p, a[1..], b);
      ConcatAssoc(if p(a[0]) then [a[0]] else "", Select(p, a[1..]), Select(p, b));
    }
  }

  lemma {:induction false} NormalizeKeepsOrdinary(s: string)
    ensures Select(Ordinary, NormalizeLines(s)) == Select(Ordinary, s)
  {
    if s != "" {
      if s[0] == '\r' {
        var rest := if |s| > 1 && s[1] == '\n' then s[2..] else s[1..];
        NormalizeKeepsOrdinary(rest);
        SelectConcat(Ordinary, "\n", NormalizeLines(rest));
        if |s| > 1 && s[1] == '\n' {
          assert s[1..][1..] == s[2..];
        }
      } else {
        NormalizeKeepsOrdinary(s[1..]);
        SelectConcat(Ordinary, [s[0]], NormalizeLines(s[1..]));
      }
    }
  }

  lemma {:induction false} CleanCharsKeepsOrdinary(s: string, keepLines: bool)
    ensures Select(Ordinary, CleanChars(s, keepLines)) == Select(Ordinary, s)
  {
    if s != "" {
      CleanCharsKeepsOrdinary(s[1..], keepLines);
      SelectConcat(Ordinary, CleanChar(s[0], keepLines), CleanChars(s[1..], keepLines));
    }
  }

  /** No ordinary character is lost, added or moved. */
  lemma CleanKeepsOrdinary(s: string, keepLines: bool)
    ensures Select(Ordinary, Clean(s, keepLines)) == Select(Ordinary, s)
  {
    NormalizeKeepsOrdinary(s);
    CleanCharsKeepsOrdinary(NormalizeLines(s), keepLines);
  }

  // ---------- The delimiter pattern ----------

  const TAG_NAME := "cross-session-message"

  /** The class \s of Go's regular expressions. */
  predicate RegexSpace(c: char) {
    c == ' ' || c == '\t' || c == '\n' || c == '\r' || c as int == 0x0c
  }

  predicate NameLetter(p: char) {
    'a' <= p <= 'z' || p == '-'
  }

  /** Simple case folding onto a lower case letter of the name; U+017F folds onto s. */
  predicate FoldsTo(c: char, p: char) {
    || c == p
    || ('a' <= p <= 'z' && c as int == p as int - 32)
    || (p == 's' && c as int == 0x017f)
  }

  /** A name the pattern can end in: its letters are no spaces, slashes or brackets. */
  predicate IsName(name: string) {
    name != "" && forall i :: 0 <= i < |name| ==> NameLetter(name[i])
  }

  lemma TagNameIsName()
    ensures IsName(TAG_NAME)
  {
  }

  function Inc(n: Option<nat>): Option<nat> {
    match n
    case None => None
    case Some(k) => Some(k + 1)
  }

  /** How much of `s` matches the literal `name`, letter by letter. */
  function NameLen(name: string, s: string): (n: Option<nat>)
    ensures n.Some? ==> n.value == |name| <= |s|
  {
    if name == "" then Some(0)
    else if s != "" && FoldsTo(s[0], name[0]) then Inc(NameLen(name[1..], s[1..]))
    else None
  }

  /** How much of `s` completes a match after its opening bracket: spaces, a slash if none was
      read yet, spaces, the name. */
  function TailLen(slashRead: bool, name: string, s: string): (n: Option<nat>)
    ensures n.Some? ==> n.value <= |s|
    decreases |s|
  {
    if s != "" && RegexSpace(s[0]) then Inc(TailLen(slashRead, name, s[1..]))
    else if s != "" && s[0] == '/' && !slashRead then Inc(TailLen(true, name, s[1..]))
    else NameLen(name, s)
  }

  /** The length of the match of the tag pattern that starts at the head of `s`, if any. */
  function TagLen(s: string): (n: Option<nat>)
    ensures n.Some? ==> 0 < n.value <= |s|
  {
    if s != "" && s[0] == '<' then Inc(TailLen(false, TAG_NAME, s[1..])) else None
  }

  /** No position of the text matches the tag pattern. */
  predicate TagFree(s: string) {
    forall i :: 0 <= i < |s| ==> TagLen(s[i..]).None?
  }

  // The language of the pattern, stated without a matcher.

  predicate AllRegexSpace(s: string) {
    forall i :: 0 <= i < |s| ==> RegexSpace(s[i])
  }

  predicate FoldsToName(s: string, name: string) {
    |s| == |name| && forall k :: 0 <= k < |s| ==> FoldsTo(s[k], name[k])
  }

  /** `t` is spaces, a slash if there is one, spaces and the name, ending where the numbers say. */
  predicate TailParts(t: string, name: string, spaces: nat, slash: bool, more: nat) {
    var afterSlash := spaces + if slash then 1 else 0;
    && afterSlash + more <= |t|
    && AllRegexSpace(t[..spaces])
    && (slash ==> t[spaces] == '/')
    && AllRegexSpace(t[afterSlash..afterSlash + more])
    && FoldsToName(t[afterSlash + more..], name)
  }

  ghost predicate InTailLanguage(t: string, name: string) {
    exists spaces: nat, slash: bool, more: nat :: TailParts(t, name, spaces, slash, more)
  }

  ghost predicate InTagLanguage(t: string) {
    t != "" && t[0] == '<' && InTailLanguage(t[1..], TAG_NAME)
  }

  lemma {:induction false} NameLenDecides(name: string, s: string)
    ensures NameLen(name, s).Some? <==> |name| <= |s| && FoldsToName(s[..|name|], name)
  {
    if name != "" && s != "" {
      NameLenDecides(name[1..], s[1..]);
      if |name| <= |s| {
        assert s[..|name|][1..] == s[1..][..|name[1..]|];
        if FoldsToName(s[..|name|], name) {
          assert FoldsTo(s[..|name|][0], name[0]);
          forall k | 0 <= k < |name[1..]|
            ensures FoldsTo(s[1..][..|name[1..]|][k], name[1..][k])
          {
            assert FoldsTo(s[..|name|][k + 1], name[k + 1]);
          }
        }
        if NameLen(name, s).Some? {
          forall k | 0 <= k < |name| ensures FoldsTo(s[..|name|][k], name[k]) {
            if k > 0 { assert FoldsTo(s[1..][..|name[1..]|][k - 1], name[1..][k - 1]); }
          }
        }
      }
    }
  }

  lemma SpaceParts(c: char, u: string, name: string, spaces: nat, slash: bool, more: nat)
    requires RegexSpace(c) && TailParts(u, name, spaces, slash, more)
    ensures TailParts([c] + u, name, spaces + 1, slash, more)
  {
    var t := [c] + u;
    var a := spaces + if slash then 1 else 0;
    assert t[..spaces + 1] == [c] + u[..spaces];
    assert t[a + 1..a + 1 + more] == u[a..a + more];
    assert t[a + 1 + more..] == u[a + more..];
  }

  lemma SlashParts(u: string, name: string, spaces: nat, more: nat)
    requires TailParts(u, name, spaces, false, more)
    ensures TailParts(['/'] + u, name, 0, true, spaces + more)
  {
    var t := ['/'] + u;
    assert t[1..1 + spaces + more] == u[..spaces] + u[spaces..spaces + more];
    assert t[1 + spaces + more..] == u[spaces + more..];
  }

  lemma {:induction false} TailToParts(slashRead: bool, name: string, s: string)
      returns (spaces: nat, slash: bool, more: nat)
    requires TailLen(slashRead, name, s).Some?
    ensures TailParts(s[..TailLen(slashRead, name, s).value], name, spaces, slash, more)
    ensures slashRead ==> !slash
    decreases |s|
  {
    var n := TailLen(slashRead, name, s).value;
    if s != "" && RegexSpace(s[0]) {
      spaces, slash, more := TailToParts(slashRead, name, s[1..]);
      assert s[..n] == [s[0]] + s[1..][..n - 1];
      SpaceParts(s[0], s[1..][..n - 1], name, spaces, slash, more);
      spaces := spaces + 1;
    } else if s != "" && s[0] == '/' && !slashRead {
      spaces, slash, more := TailToParts(true, name, s[1..]);
      assert s[..n] == ['/'] + s[1..][..n - 1];
      SlashParts(s[1..][..n - 1], name, spaces, more);
      spaces, slash, more := 0, true, spaces + more;
    } else {
      NameLenDecides(name, s);
      spaces, slash, more := 0, false, 0;
      assert s[..n][0..] == s[..n];
    }
  }

  lemma DropSpace(t: string, name: string, spaces: nat, slash: bool, more: nat)
    requires TailParts(t, name, spaces, slash, more) && spaces > 0
    ensures t != "" && RegexSpace(t[0]) && TailParts(t[1..], name, spaces - 1, slash, more)
  {
    var u := t[1..];
    var a := spaces + if slash then 1 else 0;
    assert t[..spaces][0] == t[0];
    assert u[..spaces - 1] == t[..spaces][1..];
    assert u[a - 1..a - 1 + more] == t[a..a + more];
    assert u[a - 1 + more..] == t[a + more..];
  }

  lemma DropSlash(t: string, name: string, more: nat)
    requires TailParts(t, name, 0, true, more)
    ensures t != "" && t[0] == '/' && TailParts(t[1..], name, more, false, 0)
  {
    assert t[1..][..more] == t[1..1 + more];
    assert t[1..][more..] == t[1 + more..];
  }

  lemma {:induction false} PartsToTail(slashRead: bool, name: string, t: string, rest: string, spaces: nat, slash: bool,
                                       more: nat)
    requires IsName(name)
    requires TailParts(t, name, spaces, slash, more)
    requires slashRead ==> !slash
    ensures TailLen(slashRead, name, t + rest) == Some(|t|)
    decreases |t|
  {
    if spaces > 0 {
      DropSpace(t, name, spaces, slash, more);
      assert (t + rest)[1..] == t[1..] + rest;
      PartsToTail(slashRead, name, t[1..], rest, spaces - 1, slash, more);
    } else if slash {
      DropSlash(t, name, more);
      assert (t + rest)[1..] == t[1..] + rest;
      PartsToTail(true, name, t[1..], rest, more, false, 0);
    } else if more > 0 {
      assert t[..more] == t[0..0 + more];
      assert TailParts(t, name, more, false, 0);
      DropSpace(t, name, more, false, 0);
      assert (t + rest)[1..] == t[1..] + rest;
      PartsToTail(slashRead, name, t[1..], rest, more - 1, false, 0);
    } else {
      assert t[0..] == t;
      assert (t + rest)[..|name|] == t;
      assert FoldsTo(t[0], name[0]) && NameLetter(name[0]);
      NameLenDecides(name, t + rest);
    }
  }

  /** The matcher finds a match of length `n` exactly when the text starts with `n` characters of the language. */
  lemma TagLenDecidesLanguage(s: string, n: nat)
    requires n <= |s|
    ensures TagLen(s) == Some(n) <==> InTagLanguage(s[..n])
  {
    TagNameIsName();
    if TagLen(s) == Some(n) {
      var spaces, slash, more := TailToParts(false, TAG_NAME, s[1..]);
      assert s[..n][1..] == s[1..][..n - 1];
    }
    if InTagLanguage(s[..n]) {
      var t := s[..n][1..];
      var spaces: nat, slash: bool, more: nat :| TailParts(t, TAG_NAME, spaces, slash, more);
      assert s[1..] == t + s[n..];
      PartsToTail(false, TAG_NAME, t, s[n..], spaces, slash, more);
    }
  }

  /** The lower case of an ASCII letter, and of the long s. */
  function Lower(c: char): char {
    if 'A' <= c <= 'Z' then (c as int + 32) as char else if c as int == 0x017f then 's' else c
  }

  function InLowerCase(s: string): (t: string)
    ensures |t| == |s|
  {
    if s == "" then "" else [Lower(s[0])] + InLowerCase(s[1..])
  }

  lemma {:induction false} NameIgnoresCase(name: string, s: string)
    requires forall i :: 0 <= i < |name| ==> NameLetter(name[i])
    ensures NameLen(name, InLowerCase(s)) == NameLen(name, s)
  {
    if name != "" && s != "" {
      assert NameLetter(name[0]);
      assert InLowerCase(s)[1..] == InLowerCase(s[1..]);
      NameIgnoresCase(name[1..], s[1..]);
    }
  }

  lemma {:induction false} TailIgnoresCase(slashRead: bool, name: string, s: string)
    requires forall i :: 0 <= i < |name| ==> NameLetter(name[i])
    ensures TailLen(slashRead, name, InLowerCase(s)) == TailLen(slashRead, name, s)
    decreases |s|
  {
    NameIgnoresCase(name, s);
    if s != "" {
      assert InLowerCase(s)[1..] == InLowerCase(s[1..]);
      TailIgnoresCase(slashRead, name, s[1..]);
      TailIgnoresCase(true, name, s[1..]);
    }
  }

  /** The case of letters makes no difference to what is a delimiter. */
  lemma TagIgnoresCase(s: string)
    ensures TagLen(InLowerCase(s)) == TagLen(s)
  {
    if s != "" {
      TagNameIsName();
      assert InLowerCase(s)[1..] == InLowerCase(s[1..]);
      TailIgnoresCase(false, TAG_NAME, s[1..]);
    }
  }

  // ---------- Replacement ----------

  /** ReplaceAllStringFunc: the leftmost match is rewritten and the scan resumes after it. */
  function ReplaceTags(s: string): string {
    if s == "" then ""
    else match TagLen(s)
      case Some(n) => "&lt;" + s[1..n] + ReplaceTags(s[n..])
      case None => [s[0]] + ReplaceTags(s[1..])
  }

  /** The same rewriting decided at each position on its own. */
  function Neutralise(s: string): string {
    if s == "" then ""
    else (if TagLen(s).Some? then "&lt;" else [s[0]]) + Neutralise(s[1..])
  }

  predicate NoBracket(s: string) {
    forall i :: 0 <= i < |s| ==> s[i] != '<'
  }

  lemma {:induction false} NameHasNoBracket(name: string, s: string)
    requires forall i :: 0 <= i < |name| ==> NameLetter(name[i])
    requires NameLen(name, s).Some?
    ensures NoBracket(s[..|name|])
  {
    if name != "" {
      NameHasNoBracket(name[1..], s[1..]);
      assert NameLetter(name[0]);
      assert s[..|name|] == [s[0]] + s[1..][..|name[1..]|];
    }
  }

  lemma {:induction false} TailHasNoBracket(slashRead: bool, name: string, s: string)
    requires IsName(name)
    requires TailLen(slashRead, name, s).Some?
    ensures NoBracket(s[..TailLen(slashRead, name, s).value])
    decreases |s|
  {
    var n := TailLen(slashRead, name, s).value;
    if s != "" && (RegexSpace(s[0]) || (s[0] == '/' && !slashRead)) {
      TailHasNoBracket(slashRead || s[0] == '/', name, s[1..]);
      assert s[..n] == [s[0]] + s[1..][..n - 1];
    } else {
      NameHasNoBracket(name, s);
    }
  }

  lemma {:induction false} NeutralisePlain(a: string, b: string)
    requires NoBracket(a)
    ensures Neutralise(a + b) == a + Neutralise(b)
  {
    if a == "" {
      assert a + b == b;
    } else {
      assert (a + b)[1..] == a[1..] + b;
      NeutralisePlain(a[1..], b);
      assert a == [a[0]] + a[1..];
    }
  }

  /** Skipping over a match and looking at every position give the same text. */
  lemma {:induction false} ReplaceIsNeutralise(s: string)
    ensures ReplaceTags(s) == Neutralise(s)
    decreases |s|
  {
    if s != "" {
      match TagLen(s)
      case Some(n) =>
        ReplaceIsNeutralise(s[n..]);
        TagNameIsName();
        TailHasNoBracket(false, TAG_NAME, s[1..]);
        assert s[1..][..n - 1] == s[1..n];
        NeutralisePlain(s[1..n], s[n..]);
        assert s[1..] == s[1..n] + s[n..];
      case None =>
        ReplaceIsNeutralise(s[1..]);
    }
  }

  lemma {:induction false} NameSurvives(name: string, s: string)
    requires forall i :: 0 <= i < |name| ==> NameLetter(name[i])
    ensures NameLen(name, Neutralise(s)) == NameLen(name, s)
  {
    if name != "" && s != "" {
      assert NameLetter(name[0]);
      if TagLen(s).None? {
        NameSurvives(name[1..], s[1..]);
        assert Neutralise(s)[1..] == Neutralise(s[1..]);
      }
    }
  }

  /** A match cannot begin to succeed, nor stop succeeding, because of rewriting further on. */
  lemma {:induction false} TailSurvives(slashRead: bool, name: string, s: string)
    requires IsName(name)
    ensures TailLen(slashRead, name, Neutralise(s)) == TailLen(slashRead, name, s)
    decreases |s|
  {
    NameSurvives(name, s);
    if s != "" {
      if TagLen(s).Some? {
        assert s[0] == '<' && Neutralise(s)[0] == '&';
      } else {
        assert Neutralise(s)[0] == s[0] && Neutralise(s)[1..] == Neutralise(s[1..]);
        TailSurvives(slashRead, name, s[1..]);
        TailSurvives(true, name, s[1..]);
      }
    }
  }

  lemma TagFreeCons(s: string)
    requires s != ""
    ensures TagFree(s) <==> TagLen(s).None? && TagFree(s[1..])
  {
    assert s[0..] == s;
    forall i | 0 <= i < |s[1..]| ensures s[1..][i..] == s[i + 1..] {
    }
    if TagFree(s) {
      forall i | 0 <= i < |s[1..]| ensures TagLen(s[1..][i..]).None? {
        assert TagLen(s[i + 1..]).None?;
      }
    }
    if TagLen(s).None? && TagFree(s[1..]) {
      forall i | 0 <= i < |s| ensures TagLen(s[i..]).None? {
        if i > 0 {
          assert TagLen(s[1..][i - 1..]).None?;
        }
      }
    }
  }

  lemma PlainPrefixTagFree(a: string, b: string)
    requires NoBracket(a) && TagFree(b)
    ensures TagFree(a + b)
  {
    forall i | 0 <= i < |a + b| ensures TagLen((a + b)[i..]).None? {
      if i < |a| {
        assert (a + b)[i..][0] == a[i];
      } else {
        assert (a + b)[i..] == b[i - |a|..];
      }
    }
  }

  lemma {:induction false} NeutraliseTagFree(s: string)
    ensures TagFree(Neutralise(s))
  {
    if s != "" {
      NeutraliseTagFree(s[1..]);
      var t := Neutralise(s[1..]);
      if TagLen(s).Some? {
        PlainPrefixTagFree("&lt;", t);
      } else {
        TagFreeCons([s[0]] + t);
        assert ([s[0]] + t)[1..] == t;
        TagNameIsName();
        TailSurvives(false, TAG_NAME, s[1..]);
      }
    }
  }

  lemma {:induction false} TagFreeIsFixed(s: string)
    requires TagFree(s)
    ensures Neutralise(s) == s
  {
    if s != "" {
      TagFreeCons(s);
      TagFreeIsFixed(s[1..]);
    }
  }

  // ---------- Body ----------

  function Body(s: string): string {
    ReplaceTags(Clean(s, true))
  }

  lemma BodyIs(s: string)
    ensures Body(s) == Neutralise(Clean(s, true))
  {
    ReplaceIsNeutralise(Clean(s, true));
  }

  /** After Body nothing can be read as a delimiter, whatever the case or the spacing. */
  lemma BodyTagFree(s: string)
    ensures TagFree(Body(s))
  {
    BodyIs(s);
    NeutraliseTagFree(Clean(s, true));
  }

  lemma {:induction false} NeutraliseKept(s: string)
    requires AllKept(s, true)
    ensures AllKept(Neutralise(s), true)
  {
    if s != "" {
      NeutraliseKept(s[1..]);
    }
  }

  lemma BodyKept(s: string)
    ensures AllKept(Body(s), true)
  {
    BodyIs(s);
    CleanKeeps(s, true);
    NeutraliseKept(Clean(s, true));
  }

  /** The texts Body leaves alone are exactly the clean ones in which no tag can be read. */
  lemma BodyFixedPoints(s: string)
    ensures Body(s) == s <==> AllKept(s, true) && TagFree(s)
  {
    BodyTagFree(s);
    BodyKept(s);
    BodyIs(s);
    if AllKept(s, true) && TagFree(s) {
      KeptIsFixed(s, true);
      TagFreeIsFixed(s);
    }
  }

  /** Two layers may apply Body without knowing about each other. */
  lemma BodyIdempotent(s: string)
    ensures Body(Body(s)) == Body(s)
  {
    BodyTagFree(s);
    BodyKept(s);
    BodyFixedPoints(Body(s));
  }

  /** Reads every "&lt;" back as the bracket it stands for. */
  function ReadBrackets(s: string): string {
    if s == "" then ""
    else if "&lt;" <= s then "<" + ReadBrackets(s[4..])
    else [s[0]] + ReadBrackets(s[1..])
  }

  lemma {:induction false} NeutraliseReadable(s: string)
    ensures ReadBrackets(Neutralise(s)) == ReadBrackets(s)
    decreases |s|
  {
    if s != "" {
      var t := Neutralise(s[1..]);
      if TagLen(s).Some? {
        NeutraliseReadable(s[1..]);
        assert ("&lt;" + t)[4..] == t;
        assert !("&lt;" <= s);
      } else if "&lt;" <= s {
        assert s[0] == "&lt;"[0] && s[1] == "&lt;"[1] && s[2] == "&lt;"[2] && s[3] == "&lt;"[3];
        assert s == "&lt;" + s[4..];
        NeutralisePlain("&lt;", s[4..]);
        NeutraliseReadable(s[4..]);
        assert ("&lt;" + Neutralise(s[4..]))[4..] == Neutralise(s[4..]);
      } else {
        NeutraliseReadable(s[1..]);
        assert Neutralise(s) == [s[0]] + t;
        assert ([s[0]] + t)[1..] == t;
        if "&lt;" <= [s[0]] + t {
          assert "&lt;"[0] == s[0] && "&lt;"[1..] <= t;
          PrefixSurvives("&lt;"[1..], s[1..]);
          assert false;
        }
      }
    }
  }

  /** A prefix without an ampersand is there after rewriting only if it was there before. */
  lemma {:induction false} PrefixSurvives(x: string, s: string)
    requires forall i :: 0 <= i < |x| ==> x[i] != '&'
    requires x <= Neutralise(s)
    ensures x <= s
    decreases |s|
  {
    if x != "" && s != "" {
      assert x[0] == Neutralise(s)[0];
      assert Neutralise(s)[1..] == Neutralise(s[1..]);
      assert x[1..] <= Neutralise(s[1..]);
      PrefixSurvives(x[1..], s[1..]);
      assert x == [x[0]] + x[1..];
      assert s == [s[0]] + s[1..];
    }
  }

  /** The text holds the escape of a bracket somewhere. */
  predicate HoldsEscape(s: string) {
    s != "" && ("&lt;" <= s || HoldsEscape(s[1..]))
  }

  lemma {:induction false} ReadingShortens(s: string)
    ensures |ReadBrackets(s)| <= |s| && (HoldsEscape(s) <==> |ReadBrackets(s)| < |s|)
    ensures !HoldsEscape(s) ==> ReadBrackets(s) == s
    decreases |s|
  {
    if s == "" {
    } else if "&lt;" <= s {
      ReadingShortens(s[4..]);
    } else {
      ReadingShortens(s[1..]);
    }
  }

  /** What the sender wrote stays readable: reading the escapes back gives what reading them in the
      cleaned text gives, and that is the cleaned text itself exactly when it held no escape before. */
  lemma BodyReadable(s: string)
    ensures ReadBrackets(Body(s)) == ReadBrackets(Clean(s, true))
    ensures ReadBrackets(Body(s)) == Clean(s, true) <==> !HoldsEscape(Clean(s, true))
  {
    BodyIs(s);
    NeutraliseReadable(Clean(s, true));
    ReadingShortens(Clean(s, true));
  }

  // ---------- Field ----------

  /** spaceRun.ReplaceAllString: every run of spaces and tabs becomes one space. */
  function CollapseSpace(s: string): string {
    if s == "" then ""
    else if Blank(s[0]) then
      if |s| > 1 && Blank(s[1]) then CollapseSpace(s[1..]) else " " + CollapseSpace(s[1..])
    else [s[0]] + CollapseSpace(s[1..])
  }

  predicate Blank(c: char) { c == ' ' || c == '\t' }

  function TrimLeft(space: char -> bool, s: string): (t: string)
    ensures |t| <= |s| && t == s[|s| - |t|..]
    ensures t != "" ==> !space(t[0])
    ensures s != "" && !space(s[0]) ==> t == s
  {
    if s != "" && space(s[0]) then TrimLeft(space, s[1..]) else s
  }

  function TrimRight(space: char -> bool, s: string): (t: string)
    ensures |t| <= |s| && t == s[..|t|]
    ensures t != "" ==> !space(t[|t| - 1])
    ensures s != "" && !space(s[|s| - 1]) ==> t == s
    ensures s != "" && !space(s[0]) ==> t != ""
  {
    if s != "" && space(s[|s| - 1]) then TrimRight(space, s[..|s| - 1]) else s
  }

  function Trim(space: char -> bool, s: string): string { TrimRight(space, TrimLeft(space, s)) }

  function TrimSpace(s: string): string { Trim(IsSpace, s) }

  const CUT_MARK := "..."

  function Shorten(t: string): string {
    if |t| > MAX_FIELD_RUNES then t[..MAX_FIELD_RUNES - |CUT_MARK|] + CUT_MARK else t
  }

  /** A field before it is cut to length. */
  function WholeField(s: string): string {
    TrimSpace(CollapseSpace(Clean(s, false)))
  }

  function Field(s: string): string {
    Shorten(WholeField(s))
  }

  datatype Verdict = Accepted | Empty | TooLong(n: nat) | NotClean

  function CheckField(s: string): Verdict {
    if TrimSpace(s) == "" then Empty
    else if |s| > MAX_FIELD_RUNES then TooLong(|s|)
    else if Field(s) != s then NotClean
    else Accepted
  }

  predicate All(p: char -> bool, s: string) {
    forall i :: 0 <= i < |s| ==> p(s[i])
  }

  predicate SpacedOnce(s: string) {
    forall i :: 0 <= i < |s| - 1 ==> s[i] != ' ' || s[i + 1] != ' '
  }

  predicate BareEnds(s: string) {
    s != "" ==> s[0] != ' ' && s[|s| - 1] != ' '
  }

  predicate LineChar(c: char) { Ordinary(c) || c == ' ' }

  /** One line of ordinary characters, words apart by single spaces, none at the ends. */
  predicate Tidy(s: string) {
    All(LineChar, s) && SpacedOnce(s) && BareEnds(s)
  }

  lemma SpacedOnceCons(c: char, t: string)
    requires SpacedOnce(t) && (c == ' ' && t != "" ==> t[0] != ' ')
    ensures SpacedOnce([c] + t)
  {
    forall i | 0 <= i < |[c] + t| - 1 ensures ([c] + t)[i] != ' ' || ([c] + t)[i + 1] != ' ' {
      if i > 0 { assert t[i - 1] != ' ' || t[i - 1 + 1] != ' '; }
    }
  }

  lemma AllCons(p: char -> bool, c: char, t: string)
    requires All(p, t) && p(c)
    ensures All(p, [c] + t)
  {
    forall i | 0 <= i < |[c] + t| ensures p(([c] + t)[i]) {
      if i > 0 { assert ([c] + t)[i] == t[i - 1]; }
    }
  }

  lemma {:induction false} CollapseShape(s: string)
    requires AllKept(s, false)
    ensures All(LineChar, CollapseSpace(s)) && SpacedOnce(CollapseSpace(s))
    ensures s != "" && !Blank(s[0]) ==> CollapseSpace(s) != "" && CollapseSpace(s)[0] == s[0]
  {
    if s != "" {
      var t := CollapseSpace(s[1..]);
      assert Kept(s[0], false);
      CollapseShape(s[1..]);
      if !Blank(s[0]) {
        AllCons(LineChar, s[0], t);
        SpacedOnceCons(s[0], t);
      } else if !(|s| > 1 && Blank(s[1])) {
        AllCons(LineChar, ' ', t);
        SpacedOnceCons(' ', t);
      }
    }
  }

  lemma {:induction false} SpacedOnceCollapses(s: string)
    requires SpacedOnce(s) && forall i :: 0 <= i < |s| ==> s[i] != '\t'
    ensures CollapseSpace(s) == s
  {
    if s != "" {
      SpacedOnceTail(s);
      SpacedOnceCollapses(s[1..]);
      if |s| > 1 {
        assert s[0] != ' ' || s[0 + 1] != ' ';
      }
    }
  }

  lemma SpacedOnceTail(s: string)
    requires SpacedOnce(s) && s != ""
    ensures SpacedOnce(s[1..])
  {
    forall i | 0 <= i < |s[1..]| - 1 ensures s[1..][i] != ' ' || s[1..][i + 1] != ' ' {
      assert s[i + 1] != ' ' || s[i + 1 + 1] != ' ';
    }
  }

  lemma SliceAll(p: char -> bool, s: string, lo: nat, hi: nat)
    requires All(p, s) && lo <= hi <= |s|
    ensures All(p, s[lo..hi])
  {
  }

  lemma SliceSpacedOnce(s: string, lo: nat, hi: nat)
    requires SpacedOnce(s) && lo <= hi <= |s|
    ensures SpacedOnce(s[lo..hi])
  {
    var t := s[lo..hi];
    forall i | 0 <= i < |t| - 1 ensures t[i] != ' ' || t[i + 1] != ' ' {
      assert s[lo + i] != ' ' || s[lo + i + 1] != ' ';
    }
  }

  lemma SliceOfSlice(s: string, l: string, t: string)
    requires |l| <= |s| && l == s[|s| - |l|..] && |t| <= |l| && t == l[..|t|]
    ensures t == s[|s| - |l|..|s| - |l| + |t|]
  {
  }

  lemma ShapeOfSlice(p: char -> bool, space: char -> bool, s: string, k: nat, t: string)
    requires space(' ') && All(p, s) && SpacedOnce(s)
    requires k + |t| <= |s| && t == s[k..k + |t|]
    requires t != "" ==> !space(t[0]) && !space(t[|t| - 1])
    ensures All(p, t) && SpacedOnce(t) && BareEnds(t)
  {
    SliceSpacedOnce(s, k, k + |t|);
    SliceAll(p, s, k, k + |t|);
  }

  lemma TrimIsSlice(space: char -> bool, s: string) returns (k: nat)
    ensures var t := Trim(space, s);
            && k + |t| <= |s| && t == s[k..k + |t|]
            && (t != "" ==> !space(t[0]) && !space(t[|t| - 1]))
  {
    var l := TrimLeft(space, s);
    var t := TrimRight(space, l);
    k := |s| - |l|;
    SliceOfSlice(s, l, t);
    if t != "" {
      FirstOfPrefix(l, t);
    }
  }

  lemma FirstOfPrefix(l: string, t: string)
    requires 0 < |t| <= |l| && t == l[..|t|]
    ensures t[0] == l[0]
  {
  }

  lemma TrimShape(p: char -> bool, space: char -> bool, s: string)
    requires space(' ') && All(p, s) && SpacedOnce(s)
    ensures All(p, Trim(space, s)) && SpacedOnce(Trim(space, s)) && BareEnds(Trim(space, s))
  {
    var k := TrimIsSlice(space, s);
    ShapeOfSlice(p, space, s, k, Trim(space, s));
  }

  lemma TidyTrims(s: string)
    requires Tidy(s)
    ensures TrimSpace(s) == s
  {
    if s != "" {
      assert LineChar(s[0]) && LineChar(s[|s| - 1]);
    }
  }

  lemma CutShape(p: char -> bool, s: string, n: nat, mark: string)
    requires All(p, s) && SpacedOnce(s) && BareEnds(s)
    requires All(p, mark) && mark != "" && forall i :: 0 <= i < |mark| ==> mark[i] != ' '
    requires 0 < n <= |s|
    ensures All(p, s[..n] + mark) && SpacedOnce(s[..n] + mark) && BareEnds(s[..n] + mark)
  {
    var cut := s[..n] + mark;
    forall i | 0 <= i < |cut| ensures p(cut[i]) {
      if i >= n { assert cut[i] == mark[i - n]; }
    }
    forall i | 0 <= i < |cut| - 1 ensures cut[i] != ' ' || cut[i + 1] != ' ' {
      if i + 1 < n {
        assert s[i] != ' ' || s[i + 1] != ' ';
      } else {
        assert cut[i + 1] == mark[i + 1 - n];
      }
    }
    assert cut[|cut| - 1] == mark[|mark| - 1];
  }

  lemma ShortenTidy(t: string)
    requires Tidy(t)
    ensures Tidy(Shorten(t)) && |Shorten(t)| <= MAX_FIELD_RUNES
  {
    if |t| > MAX_FIELD_RUNES {
      assert All(LineChar, CUT_MARK);
      CutShape(LineChar, t, MAX_FIELD_RUNES - |CUT_MARK|, CUT_MARK);
    }
  }

  /** Field always yields one short tidy line, even when it truncates. */
  lemma FieldShape(s: string)
    ensures Tidy(Field(s)) && |Field(s)| <= MAX_FIELD_RUNES
  {
    CleanKeeps(s, false);
    CollapseShape(Clean(s, false));
    TrimShape(LineChar, IsSpace, CollapseSpace(Clean(s, false)));
    ShortenTidy(WholeField(s));
  }

  lemma TidyKept(s: string, keepLines: bool)
    requires Tidy(s)
    ensures AllKept(s, keepLines)
  {
    forall i | 0 <= i < |s| ensures Kept(s[i], keepLines) {
      assert LineChar(s[i]);
    }
  }

  lemma TidyIsFixed(s: string)
    requires Tidy(s) && |s| <= MAX_FIELD_RUNES
    ensures Field(s) == s
  {
    TidyKept(s, false);
    KeptIsFixed(s, false);
    forall i | 0 <= i < |s| ensures s[i] != '\t' { assert LineChar(s[i]); }
    SpacedOnceCollapses(s);
    TidyTrims(s);
  }

  /** The values Field leaves alone are exactly the short tidy lines. */
  lemma FieldFixedPoints(s: string)
    ensures Field(s) == s <==> Tidy(s) && |s| <= MAX_FIELD_RUNES
  {
    FieldShape(s);
    if Tidy(s) && |s| <= MAX_FIELD_RUNES {
      TidyIsFixed(s);
    }
  }

  lemma FieldIdempotent(s: string)
    ensures Field(Field(s)) == Field(s)
  {
    FieldShape(s);
    FieldFixedPoints(Field(s));
  }

  lemma {:induction false} CollapseKeepsOrdinary(p: char -> bool, s: string)
    requires !p(' ') && !p('\t')
    ensures Select(p, CollapseSpace(s)) == Select(p, s)
  {
    if s != "" {
      CollapseKeepsOrdinary(p, s[1..]);
      var t := CollapseSpace(s[1..]);
      assert (" " + t)[1..] == t && ([s[0]] + t)[1..] == t;
    }
  }

  lemma {:induction false} TrimLeftKeeps(p: char -> bool, space: char -> bool, s: string)
    requires forall c :: space(c) ==> !p(c)
    ensures Select(p, TrimLeft(space, s)) == Select(p, s)
  {
    if s != "" && space(s[0]) {
      TrimLeftKeeps(p, space, s[1..]);
    }
  }

  lemma {:induction false} TrimRightKeeps(p: char -> bool, space: char -> bool, s: string)
    requires forall c :: space(c) ==> !p(c)
    ensures Select(p, TrimRight(space, s)) == Select(p, s)
  {
    if s != "" && space(s[|s| - 1]) {
      var init, last := s[..|s| - 1], s[|s| - 1..];
      TrimRightKeeps(p, space, init);
      assert s == init + last && last[0] == s[|s| - 1] && last[1..] == "";
      SelectConcat(p, init, last);
    }
  }

  /** Before it is cut a field holds every ordinary character, in order; a cut one begins like it. */
  lemma FieldKeepsOrdinary(s: string)
    ensures Select(Ordinary, WholeField(s)) == Select(Ordinary, s)
    ensures |WholeField(s)| <= MAX_FIELD_RUNES ==> Field(s) == WholeField(s)
    ensures |WholeField(s)| > MAX_FIELD_RUNES ==>
            |Field(s)| == MAX_FIELD_RUNES && Field(s)[..93] == WholeField(s)[..93] && Field(s)[93..] == CUT_MARK
  {
    CleanKeepsOrdinary(s, false);
    var c := Clean(s, false);
    CollapseKeepsOrdinary(Ordinary, c);
    TrimLeftKeeps(Ordinary, IsSpace, CollapseSpace(c));
    TrimRightKeeps(Ordinary, IsSpace, TrimLeft(IsSpace, CollapseSpace(c)));
  }

  lemma {:induction false} TrimLeftEmpty(space: char -> bool, s: string)
    ensures TrimLeft(space, s) == "" <==> All(space, s)
  {
    if s != "" && space(s[0]) {
      TrimLeftEmpty(space, s[1..]);
      if All(space, s[1..]) {
        AllCons(space, s[0], s[1..]);
        assert [s[0]] + s[1..] == s;
      }
    }
  }

  lemma TrimEmpty(space: char -> bool, s: string)
    ensures Trim(space, s) == "" <==> All(space, s)
  {
    TrimLeftEmpty(space, s);
  }

  /** The boundary accepts exactly the nonempty values Field would not change, and calls empty exactly
      those made of spaces, and too long those of the others that have more than 96 characters. */
  lemma CheckFieldAccepts(s: string)
    ensures CheckField(s) == Accepted <==> s != "" && Field(s) == s
    ensures CheckField(s) == Empty <==> All(IsSpace, s)
    ensures forall n: nat :: CheckField(s) == TooLong(n) <==> !All(IsSpace, s) && |s| == n > 96
  {
    TrimEmpty(IsSpace, s);
    FieldFixedPoints(s);
    if Field(s) == s {
      TidyTrims(s);
    }
  }
}
