/** The two regular expressions of `extract_contact_info`, written as the left-to-right scans
    Python's `re.findall` performs with them:
      emails  `[\w\.-]+@[\w\.-]+`
      phones  `\+?\d[\d -]{8,12}\d`
    `findall` tries each position in turn; after a match it resumes where the match ended. */
module Patterns {
  import opened Wrappers
  import opened Text

  /** `\w` restricted to ASCII: letters, digits and underscore. */
  predicate IsWordChar(c: char) {
    ('a' <= c <= 'z') || ('A' <= c <= 'Z') || IsDigit(c) || c == '_'
  }

  /** `[\w\.-]` */
  predicate IsEmailChar(c: char) {
    IsWordChar(c) || c == '.' || c == '-'
  }

  /** `[\d -]` */
  predicate IsPhoneFill(c: char) {
    IsDigit(c) || c == ' ' || c == '-'
  }

  /** The end of the maximal run of `[\w\.-]` characters starting at `i`. */
  function EmailRunEnd(s: string, i: nat): (j: nat)
    requires i <= |s|
    ensures i <= j <= |s| && (forall k :: i <= k < j ==> IsEmailChar(s[k])) && (j < |s| ==> !IsEmailChar(s[j]))
    decreases |s| - i
  {
    if i < |s| && IsEmailChar(s[i]) then EmailRunEnd(s, i + 1) else i
  }

  /** The end of the email match that starts at `i`, if one does. Both runs are greedy and no
      shorter first run can be followed by `@`, so no backtracking is needed. */
  function EmailAt(s: string, i: nat): (r: Option<nat>)
    requires i <= |s|
    ensures r.Some? ==> i < r.value <= |s|
  {
    var j := EmailRunEnd(s, i);
    if i < j && j < |s| && s[j] == '@' && j + 1 < EmailRunEnd(s, j + 1) then Some(EmailRunEnd(s, j + 1))
    else None
  }

  /** Every character of `s[from..to]` is a digit, a space or a dash. */
  predicate AllFill(s: string, from: nat, to: nat)
    requires from <= to <= |s|
  {
    forall k :: from <= k < to ==> IsPhoneFill(s[k])
  }

  /** `[\d -]{m}\d` matches at `k`: `m` fill characters and then a digit. */
  predicate TailFits(s: string, k: nat, m: nat) {
    k + m < |s| && AllFill(s, k, k + m) && IsDigit(s[k + m])
  }

  /** `[\d -]{8,n}\d` at `k`: the greedy repetition tries `n` characters first and gives one back
      at a time down to eight, so the tail taken is the longest that fits. */
  function PhoneTail(s: string, k: nat, n: nat): (r: Option<nat>)
    requires k <= |s| && 8 <= n <= 12
    ensures r.Some? ==> k + 9 <= r.value <= k + n + 1 && r.value <= |s|
                        && AllFill(s, k, r.value - 1) && IsDigit(s[r.value - 1])
    ensures r.Some? ==> TailFits(s, k, r.value - k - 1) && forall m :: r.value - k - 1 < m <= n ==> !TailFits(s, k, m)
    ensures r.None? <==> forall m :: 8 <= m <= n ==> !TailFits(s, k, m)
    decreases n
  {
    if TailFits(s, k, n) then
      assert (k + n + 1) - k - 1 == n;
      Some(k + n + 1)
    else if n == 8 then None
    else PhoneTail(s, k, n - 1)
  }

  /** The end of the phone match that starts at `i`, if one does. `\+?` first takes a plus; giving
      it back cannot help, since `\d` would then have to match the plus. */
  function PhoneAt(s: string, i: nat): (r: Option<nat>)
    requires i <= |s|
    ensures r.Some? ==> i < r.value <= |s|
  {
    var j := if i < |s| && s[i] == '+' then i + 1 else i;
    if j < |s| && IsDigit(s[j]) then PhoneTail(s, j + 1, 12) else None
  }

  datatype Pattern = EmailPattern | PhonePattern

  function MatchAt(p: Pattern, s: string, i: nat): (r: Option<nat>)
    requires i <= |s|
    ensures r.Some? ==> i < r.value <= |s|
  {
    match p
    case EmailPattern => EmailAt(s, i)
    case PhonePattern => PhoneAt(s, i)
  }

  /** `re.findall(p, s[from:])`, positions counted in `s`. */
  function FindAllFrom(p: Pattern, s: string, from: nat): seq<string>
    requires from <= |s|
    decreases |s| - from
  {
    if from == |s| then []
    else match MatchAt(p, s, from)
      case Some(j) => [s[from..j]] + FindAllFrom(p, s, j)
      case None => FindAllFrom(p, s, from + 1)
  }

  function FindAll(p: Pattern, s: string): seq<string> {
    FindAllFrom(p, s, 0)
  }

  /** One `@` with a non-empty run of `[\w\.-]` on each side. */
  predicate EmailShaped(m: string) {
    exists j :: 0 < j < |m| - 1 && m[j] == '@' && forall k :: 0 <= k < |m| && k != j ==> IsEmailChar(m[k])
  }

  /** An optional plus, a digit, eight to twelve digits, spaces or dashes, and a final digit. */
  predicate PhoneShaped(m: string) {
    && 10 <= |m| <= 15
    && (m[0] == '+' || IsDigit(m[0]))
    && (m[0] == '+' ==> 11 <= |m| && IsDigit(m[1]))
    && (m[0] != '+' ==> |m| <= 14)
    && IsDigit(m[|m| - 1])
    && forall k :: 0 < k < |m| - 1 ==> IsPhoneFill(m[k])
  }

  predicate Shaped(p: Pattern, m: string) {
    match p
    case EmailPattern => EmailShaped(m)
    case PhonePattern => PhoneShaped(m)
  }

  lemma MatchAtShaped(p: Pattern, s: string, i: nat)
    requires i <= |s| && MatchAt(p, s, i).Some?
    ensures Shaped(p, s[i..MatchAt(p, s, i).value])
  {
    var e := MatchAt(p, s, i).value;
    var m := s[i..e];
    match p
    case EmailPattern =>
      var j := EmailRunEnd(s, i);
      assert m[j - i] == '@';
      assert forall k :: 0 <= k < |m| && k != j - i ==> IsEmailChar(m[k]) by {
        assert forall k :: 0 <= k < |m| ==> m[k] == s[i + k];
      }
    case PhonePattern =>
      assert forall k :: 0 <= k < |m| ==> m[k] == s[i + k];
  }

  /** Every string `findall` returns is a match of the pattern at some position of the text. */
  lemma {:induction false} FindAllFromMatches(p: Pattern, s: string, from: nat)
    requires from <= |s|
    ensures forall m :: m in FindAllFrom(p, s, from) ==> Shaped(p, m) && Contains(s, m)
    decreases |s| - from
  {
    if from < |s| {
      match MatchAt(p, s, from)
      case Some(j) =>
        FindAllFromMatches(p, s, j);
        MatchAtShaped(p, s, from);
        assert OccursAt(s, s[from..j], from);
        ContainsAt(s, s[from..j], from);
      case None =>
        FindAllFromMatches(p, s, from + 1);
    }
  }

  /** No position from `from` up to `i` starts a match. */
  predicate NoMatchBetween(p: Pattern, s: string, from: nat, i: nat)
    requires from <= i <= |s|
  {
    forall k :: from <= k < i ==> MatchAt(p, s, k).None?
  }

  /** A position that starts no match is skipped. */
  lemma FindAllFromSkips(p: Pattern, s: string, from: nat)
    requires from < |s| && MatchAt(p, s, from).None?
    ensures FindAllFrom(p, s, from) == FindAllFrom(p, s, from + 1)
  {
  }

  /** A position that starts a match lists it and resumes where it ends. */
  lemma FindAllFromTakes(p: Pattern, s: string, from: nat)
    requires from < |s| && MatchAt(p, s, from).Some?
    ensures FindAllFrom(p, s, from) == [s[from..MatchAt(p, s, from).value]] + FindAllFrom(p, s, MatchAt(p, s, from).value)
  {
  }

  /** `findall` misses no match: it lists nothing when no position starts one, and otherwise its
      first item is the match at the leftmost position that starts one, after which it resumes
      where that match ends. */
  lemma {:induction false} FindAllFromLeftmost(p: Pattern, s: string, from: nat, i: nat)
    requires from <= i <= |s| && NoMatchBetween(p, s, from, i)
    ensures i == |s| ==> FindAllFrom(p, s, from) == []
    ensures i < |s| && MatchAt(p, s, i).Some? ==>
              FindAllFrom(p, s, from) == [s[i..MatchAt(p, s, i).value]] + FindAllFrom(p, s, MatchAt(p, s, i).value)
    decreases i - from
  {
    if from < i {
      FindAllFromSkips(p, s, from);
      assert NoMatchBetween(p, s, from + 1, i);
      FindAllFromLeftmost(p, s, from + 1, i);
    } else if i < |s| && MatchAt(p, s, i).Some? {
      FindAllFromTakes(p, s, i);
    }
  }

  /** Matches are reported as often as they occur: `findall` does not remove duplicates. */
  lemma FindAllKeepsDuplicates()
    ensures FindAll(EmailPattern, "a@b a@b") == ["a@b", "a@b"]
  {
    var s := "a@b a@b";
    assert EmailRunEnd(s, 1) == 1 && EmailRunEnd(s, 0) == 1;
    assert EmailRunEnd(s, 3) == 3 && EmailRunEnd(s, 2) == 3;
    assert EmailAt(s, 0) == Some(3);
    assert s[0..3] == "a@b";
    assert EmailRunEnd(s, 3) == 3 && EmailAt(s, 3) == None;
    assert EmailRunEnd(s, 5) == 5 && EmailRunEnd(s, 4) == 5;
    assert EmailRunEnd(s, 7) == 7 && EmailRunEnd(s, 6) == 7;
    assert EmailAt(s, 4) == Some(7);
    assert s[4..7] == "a@b";
    assert FindAllFrom(EmailPattern, s, 7) == [];
    assert FindAllFrom(EmailPattern, s, 4) == ["a@b"];
    assert FindAllFrom(EmailPattern, s, 3) == ["a@b"];
  }
}
