/** Fresh login names for created students: slugify_username and
    unique_usernames. Text is arbitrary; norm stands for normalize_person_name
    and lower for str.lower. */
module Usernames {
  import opened Common
  import opened Decimals

  // ------------------------------------------------------ slugs

  predicate IsSlugChar(c: char) {
    'a' <= c <= 'z' || '0' <= c <= '9'
  }

  predicate IsSlug(s: string) {
    forall i | 0 <= i < |s| :: IsSlugChar(s[i])
  }

  function OnlySlugChars(s: string): (r: string)
    ensures IsSlug(r) && |r| <= |s|
  {
    if s == "" then ""
    else (if IsSlugChar(s[0]) then [s[0]] else []) + OnlySlugChars(s[1..])
  }

  const BASE_LENGTH: nat := 40
  const NAME_LENGTH: nat := 100

  function Slugify(norm: string -> string, lower: string -> string, fullName: string): (r: string)
    ensures IsSlug(r) && 0 < |r| <= BASE_LENGTH
  {
    var text := OnlySlugChars(lower(norm(fullName)));
    if text == "" then "siswa" else if |text| <= BASE_LENGTH then text else text[..BASE_LENGTH]
  }

  /** The letters a to z and the digits of a text, in order. */
  lemma {:induction false} SlugLetters(s: string, c: char)
    ensures OnlySlugChars("") == ""
    ensures OnlySlugChars(s + [c]) == OnlySlugChars(s) + (if 'a' <= c <= 'z' || '0' <= c <= '9' then [c] else [])
  {
    if s == "" {
      assert s + [c] == [c] && [c][1..] == "";
    } else {
      SlugLetters(s[1..], c);
      assert (s + [c])[1..] == s[1..] + [c];
    }
  }

  /** A base is the first 40 of those of the normalised name in lower case, and
      "siswa" when there is none. */
  lemma SlugOfName(norm: string -> string, lower: string -> string, fullName: string)
    ensures var slug, letters := Slugify(norm, lower, fullName), OnlySlugChars(lower(norm(fullName)));
            && (letters == "" ==> slug == "siswa")
            && (0 < |letters| <= 40 ==> slug == letters)
            && (|letters| > 40 ==> slug == letters[..40])
  {
  }

  // ------------------------------------------------------ candidates

  /** The names tried for a base: the base itself, then base2, base3, ... cut
      at 100 characters. */
  function Candidate(base: string, suffix: nat): string {
    if suffix <= 1 then base
    else
      var s := base + Decimal(suffix);
      if |s| <= NAME_LENGTH then s else s[..NAME_LENGTH]
  }

  /** The number has at most 60 digits, so a base of 40 characters leaves room
      for it. */
  predicate Fits(n: nat) {
    |Decimal(n)| <= NAME_LENGTH - BASE_LENGTH
  }

  /** The first candidate is the base, the k-th the base and the numeral k. */
  lemma CandidateIs(base: string, k: nat)
    requires |base| <= 40 && 2 <= k && |Decimal(k)| <= 60
    ensures Candidate(base, 1) == base && Candidate(base, k) == base + Decimal(k)
  {
  }

  /** Longer ones are cut at 100 characters. */
  lemma CandidateIsCut(base: string, k: nat)
    requires 2 <= k && |base + Decimal(k)| > 100
    ensures |Candidate(base, k)| == 100 && Candidate(base, k) <= base + Decimal(k)
  {
  }

  /** While the suffix fits the cut never bites, so different suffixes give
      different names. */
  lemma CandidatesDiffer(base: string, j: nat, k: nat)
    requires |base| <= BASE_LENGTH && 1 <= j < k && Fits(k)
    ensures Candidate(base, j) != Candidate(base, k)
  {
    DecimalGrows(j, k);
    assert Candidate(base, k) == base + Decimal(k);
    if j > 1 && Candidate(base, j) == Candidate(base, k) {
      assert Decimal(j) == Candidate(base, j)[|base|..] == Decimal(k);
      DecimalInjective(j, k);
    }
  }

  lemma CandidateIsSlug(base: string, suffix: nat)
    requires IsSlug(base)
    ensures IsSlug(Candidate(base, suffix))
  {
  }

  // ------------------------------------------------------ unique_usernames

  ghost predicate LowerFixesSlugs(lower: string -> string) {
    forall s: string | IsSlug(s) :: lower(s) == s
  }

  /** name is the first candidate for base that is not taken. */
  ghost predicate FirstFree(base: string, taken: set<string>, name: string) {
    exists k: nat | 1 <= k <= |taken| + 1 ::
      name == Candidate(base, k) && name !in taken && forall j | 1 <= j < k :: Candidate(base, j) in taken
  }

  /** k candidates that are all taken are k different members of taken. */
  lemma {:induction false} Pigeonhole(base: string, taken: set<string>, k: nat)
    requires |base| <= BASE_LENGTH && Fits(k)
    requires forall j: nat | 1 <= j <= k :: Candidate(base, j) in taken
    ensures k <= |taken|
  {
    if k > 0 {
      var last := Candidate(base, k);
      forall j: nat | 1 <= j <= k - 1 ensures Candidate(base, j) in taken - {last} {
        CandidatesDiffer(base, j, k);
      }
      DecimalGrows(k - 1, k);
      Pigeonhole(base, taken - {last}, k - 1);
    }
  }

  /** The inner loop: it ends within |taken| + 1 candidates. */
  method FreshName(base: string, taken: set<string>, lower: string -> string) returns (candidate: string)
    requires IsSlug(base) && |base| <= BASE_LENGTH && LowerFixesSlugs(lower) && Fits(|taken| + 1)
    ensures FirstFree(base, taken, candidate) && lower(candidate) == candidate
  {
    candidate := base;
    var suffix := 1;
    while lower(candidate) in taken
      invariant 1 <= suffix <= |taken| + 1 && candidate == Candidate(base, suffix) && IsSlug(candidate)
      invariant forall j: nat | 1 <= j < suffix :: Candidate(base, j) in taken
      decreases |taken| + 1 - suffix
    {
      DecimalGrows(suffix, |taken| + 1);
      Pigeonhole(base, taken, suffix);
      suffix := suffix + 1;
      var name := base + Decimal(suffix);
      candidate := if |name| <= NAME_LENGTH then name else name[..NAME_LENGTH];
      CandidateIsSlug(base, suffix);
    }
  }

  function Lowered(lower: string -> string, names: set<string>): set<string> {
    set n | n in names :: lower(n)
  }

  /** Each name is the first free candidate of its base, given the taken names
      and those handed out before. */
  ghost predicate Assigned(bases: seq<string>, taken: set<string>, names: seq<string>) {
    && |names| <= |bases|
    && forall i | 0 <= i < |names| :: FirstFree(bases[i], taken + ToSet(names[..i]), names[i])
  }

  lemma SnocAt(base: string, taken: set<string>, names: seq<string>, next: string, i: nat)
    requires i <= |names|
    requires FirstFree(base, taken + ToSet(names[..i]), if i < |names| then names[i] else next)
    ensures FirstFree(base, taken + ToSet((names + [next])[..i]), (names + [next])[i])
  {
    assert (names + [next])[..i] == names[..i];
    assert (names + [next])[i] == if i < |names| then names[i] else next;
  }

  lemma AssignedSnoc(bases: seq<string>, taken: set<string>, names: seq<string>, next: string)
    requires Assigned(bases, taken, names) && |names| < |bases|
    requires FirstFree(bases[|names|], taken + ToSet(names), next)
    ensures Assigned(bases, taken, names + [next])
  {
    assert names[..|names|] == names;
    forall i | 0 <= i < |names| + 1
      ensures FirstFree(bases[i], taken + ToSet((names + [next])[..i]), (names + [next])[i])
    {
      SnocAt(bases[i], taken, names, next, i);
    }
  }

  /** So the names differ from each other and from every taken name. */
  lemma AssignedAreFresh(bases: seq<string>, taken: set<string>, names: seq<string>)
    requires Assigned(bases, taken, names)
    ensures forall i | 0 <= i < |names| :: names[i] !in taken
    ensures forall i, j | 0 <= i < j < |names| :: names[i] != names[j]
  {
    forall i, j | 0 <= i < j < |names| ensures names[i] != names[j] {
      assert FirstFree(bases[j], taken + ToSet(names[..j]), names[j]);
      assert names[..j][i] == names[i];
      assert names[i] in ToSet(names[..j]);
    }
    forall i | 0 <= i < |names| ensures names[i] !in taken {
      assert FirstFree(bases[i], taken + ToSet(names[..i]), names[i]);
    }
  }

  lemma {:induction false} AssignedAreSlugs(bases: seq<string>, taken: set<string>, names: seq<string>)
    requires Assigned(bases, taken, names) && forall i | 0 <= i < |bases| :: IsSlug(bases[i])
    ensures forall i | 0 <= i < |names| :: IsSlug(names[i])
  {
    forall i | 0 <= i < |names| ensures IsSlug(names[i]) {
      assert FirstFree(bases[i], taken + ToSet(names[..i]), names[i]);
      var k: nat :| names[i] == Candidate(bases[i], k);
      CandidateIsSlug(bases[i], k);
    }
  }

  function Bases(norm: string -> string, lower: string -> string, fullNames: seq<string>): (bases: seq<string>)
    ensures |bases| == |fullNames| && forall i | 0 <= i < |bases| :: IsSlug(bases[i]) && |bases[i]| <= BASE_LENGTH
  {
    seq(|fullNames|, i requires 0 <= i < |fullNames| => Slugify(norm, lower, fullNames[i]))
  }

  /** unique_usernames. Each name is the first free candidate of its base; the
      new names differ from each other and from every existing one, ignoring
      case. */
  method UniqueUsernames(norm: string -> string, lower: string -> string, fullNames: seq<string>, existing: set<string>)
    returns (result: seq<string>)
    requires LowerFixesSlugs(lower)
    requires Fits(|Lowered(lower, existing)| + |fullNames|)
    ensures |result| == |fullNames|
    ensures forall i | 0 <= i < |result| ::
              IsCandidate(Slugify(norm, lower, fullNames[i]), result[i], |Lowered(lower, existing)| + i + 1)
    ensures Assigned(Bases(norm, lower, fullNames), Lowered(lower, existing), result)
    ensures forall i, j | 0 <= i < j < |result| :: lower(result[i]) != lower(result[j])
    ensures forall i, e | 0 <= i < |result| && e in existing :: lower(result[i]) != lower(e)
  {
    result := AssignNames(Bases(norm, lower, fullNames), Lowered(lower, existing), lower);
    AssignedIgnoringCase(Bases(norm, lower, fullNames), result, lower, existing);
    forall i | 0 <= i < |result|
      ensures IsCandidate(Slugify(norm, lower, fullNames[i]), result[i], |Lowered(lower, existing)| + i + 1)
    {
      AssignedFromBase(Bases(norm, lower, fullNames), Lowered(lower, existing), result, i);
    }
  }

  /** name is one of the first so many candidates of base. */
  ghost predicate IsCandidate(base: string, name: string, limit: nat) {
    exists k: nat :: 1 <= k <= limit && name == Candidate(base, k)
  }

  lemma AssignedFromBase(bases: seq<string>, taken: set<string>, names: seq<string>, i: nat)
    requires Assigned(bases, taken, names) && i < |names|
    ensures IsCandidate(bases[i], names[i], |taken| + i + 1)
  {
    assert FirstFree(bases[i], taken + ToSet(names[..i]), names[i]);
    SetOfFirst(names, i);
    assert |taken + ToSet(names[..i])| <= |taken| + |ToSet(names[..i])|;
    var k: nat :| 1 <= k <= |taken + ToSet(names[..i])| + 1 && names[i] == Candidate(bases[i], k);
    assert 1 <= k <= |taken| + i + 1;
  }

  lemma {:induction false} SetOfFirst(names: seq<string>, i: nat)
    requires i <= |names|
    ensures |ToSet(names[..i])| <= i
  {
    if i == 0 {
      assert ToSet(names[..0]) == {};
    } else {
      SetOfFirst(names, i - 1);
      assert names[..i] == names[..i - 1] + [names[i - 1]];
      SnocSet(names[..i - 1], names[i - 1]);
    }
  }

  /** One turn of the outer loop. */
  method AssignNext(bases: seq<string>, others: set<string>, names: seq<string>, taken: set<string>,
      lower: string -> string)
    returns (longer: seq<string>, nowTaken: set<string>)
    requires LowerFixesSlugs(lower) && Fits(|taken| + 1)
    requires |names| < |bases| && IsSlug(bases[|names|]) && |bases[|names|]| <= BASE_LENGTH
    requires Assigned(bases, others, names) && taken == others + ToSet(names)
    ensures Assigned(bases, others, longer) && |longer| == |names| + 1
    ensures nowTaken == others + ToSet(longer) && |nowTaken| <= |taken| + 1
  {
    var candidate := FreshName(bases[|names|], taken, lower);
    AssignedSnoc(bases, others, names, candidate);
    SnocSet(names, candidate);
    longer, nowTaken := names + [candidate], taken + {lower(candidate)};
  }

  /** The outer loop: taken grows by each name handed out. */
  method AssignNames(bases: seq<string>, others: set<string>, lower: string -> string) returns (result: seq<string>)
    requires LowerFixesSlugs(lower) && Fits(|others| + |bases|)
    requires forall i | 0 <= i < |bases| :: IsSlug(bases[i]) && |bases[i]| <= BASE_LENGTH
    ensures |result| == |bases| && Assigned(bases, others, result)
  {
    var taken := others;
    result := [];
    while |result| < |bases|
      invariant |result| <= |bases| && Assigned(bases, others, result)
      invariant taken == others + ToSet(result) && |taken| <= |others| + |result|
    {
      DecimalGrows(|taken| + 1, |others| + |bases|);
      result, taken := AssignNext(bases, others, result, taken, lower);
    }
  }

  lemma SnocSet(names: seq<string>, next: string)
    ensures ToSet(names + [next]) == ToSet(names) + {next}
  {
  }

  lemma AssignedIgnoringCase(bases: seq<string>, names: seq<string>, lower: string -> string, existing: set<string>)
    requires Assigned(bases, Lowered(lower, existing), names) && (forall i | 0 <= i < |bases| :: IsSlug(bases[i]))
        && LowerFixesSlugs(lower)
    ensures forall i, j | 0 <= i < j < |names| :: lower(names[i]) != lower(names[j])
    ensures forall i, e | 0 <= i < |names| && e in existing :: lower(names[i]) != lower(e)
  {
    var others := Lowered(lower, existing);
    AssignedAreFresh(bases, others, names);
    AssignedAreSlugs(bases, others, names);
    assert forall i | 0 <= i < |names| :: lower(names[i]) == names[i];
    assert forall e | e in existing :: lower(e) in others;
  }
}
