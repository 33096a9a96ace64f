/**
 * The display order of the admin projects page: `projects.sort` with a
 * comparator that puts the newer `date` first. Dates are the "Month YYYY"
 * strings the page itself writes (`toLocaleDateString('en-US', { year:
 * 'numeric', month: 'long' })`); the key of such a date counts months.
 */
module DisplayOrder {
  import opened Opt
  import opened Projects

  const MonthNames: seq<string> := [
    "January", "February", "March", "April", "May", "June",
    "July", "August", "September", "October", "November", "December"]

  /** The index (0 = January) of an English month name as `toLocaleDateString` writes it. */
  function MonthIndex(name: string): (r: Option<nat>)
    ensures r.Some? ==> r.value < 12 && MonthNames[r.value] == name
  {
    if name == "January" then Some(0)
    else if name == "February" then Some(1)
    else if name == "March" then Some(2)
    else if name == "April" then Some(3)
    else if name == "May" then Some(4)
    else if name == "June" then Some(5)
    else if name == "July" then Some(6)
    else if name == "August" then Some(7)
    else if name == "September" then Some(8)
    else if name == "October" then Some(9)
    else if name == "November" then Some(10)
    else if name == "December" then Some(11)
    else None
  }

  /** Every month name is recognised, and none holds a space. */
  lemma MonthNamesRecognised(m: nat)
    requires m < 12
    ensures MonthIndex(MonthNames[m]) == Some(m)
    ensures forall k :: 0 <= k < |MonthNames[m]| ==> MonthNames[m][k] != ' '
  {
  }

  predicate IsDigit(c: char) {
    '0' <= c <= '9'
  }

  /** The value of a non-empty string of decimal digits; `None` for anything else. */
  function DigitsValue(s: string): (r: Option<nat>)
    ensures r.Some? <==> s != "" && forall k :: 0 <= k < |s| ==> IsDigit(s[k])
  {
    if s == "" || !IsDigit(s[|s| - 1]) then None
    else
      var d := (s[|s| - 1] as int - '0' as int) as nat;
      if |s| == 1 then Some(d)
      else match DigitsValue(s[..|s| - 1])
        case None => None
        case Some(v) => Some(10 * v + d)
  }

  /** The position of the first space in `s` at or after `i`, if any. */
  function SpaceFrom(s: string, i: nat): (r: Option<nat>)
    requires i <= |s|
    ensures r.Some? ==> i <= r.value < |s| && s[r.value] == ' '
    ensures forall k :: i <= k < |s| && (r.None? || k < r.value) ==> s[k] != ' '
    decreases |s| - i
  {
    if i == |s| then None
    else if s[i] == ' ' then Some(i)
    else SpaceFrom(s, i + 1)
  }

  /** The position of the first space in `s`, if any. */
  function SpaceIndex(s: string): (r: Option<nat>)
    ensures r.Some? ==> r.value < |s| && s[r.value] == ' '
    ensures forall k :: 0 <= k < |s| && (r.None? || k < r.value) ==> s[k] != ' '
  {
    SpaceFrom(s, 0)
  }

  /**
   * The sort key of a date in the form the page writes: a full English
   * month name, one space and a four-digit year from 1000 on; twelve per
   * year plus the month's index. `None` for any other text, including
   * strings the browser's date parser reads in its own way (abbreviated or
   * lower-case months, two-digit years, which it places in the 1900s or
   * 2000s).
   */
  function DateKey(date: string): Option<int> {
    match SpaceIndex(date)
    case None => None
    case Some(i) => MonthYearKey(date[..i], date[i + 1..])
  }

  /** The key of a month name and a year written apart. */
  function MonthYearKey(month: string, year: string): Option<int> {
    match (MonthIndex(month), DigitsValue(year))
    case (Some(m), Some(y)) => if |year| == 4 && y >= 1000 then Some(12 * y + m) else None
    case _ => None
  }

  /** The date that `toLocaleDateString` writes for month `m` (0 = January) of a year written `year`. */
  function MonthYear(m: nat, year: string): string
    requires m < 12
  {
    MonthNames[m] + " " + year
  }

  /** The space after a word with no space in it is the first space. */
  lemma FirstSpaceAfterWord(word: string, rest: string)
    requires forall k :: 0 <= k < |word| ==> word[k] != ' '
    ensures SpaceIndex(word + " " + rest) == Some(|word|)
  {
    var d := word + " " + rest;
    assert d[..|word|] == word;
    assert d[|word|] == ' ';
  }

  /** Every "Month YYYY" date has a key, twelve per year plus the month's index. */
  lemma DateKeyOfMonthYear(m: nat, year: string)
    requires m < 12
    requires |year| == 4 && DigitsValue(year).Some? && DigitsValue(year).value >= 1000
    ensures DateKey(MonthYear(m, year)) == Some(12 * DigitsValue(year).value + m)
  {
    MonthNamesRecognised(m);
    DateKeyOfWords(MonthNames[m], m, year);
  }

  /** A month's name, one space and a four-digit year from 1000 on have that month's key. */
  lemma DateKeyOfWords(name: string, m: nat, year: string)
    requires MonthIndex(name) == Some(m) && forall k :: 0 <= k < |name| ==> name[k] != ' '
    requires |year| == 4 && DigitsValue(year).Some? && DigitsValue(year).value >= 1000
    ensures DateKey(name + " " + year) == Some(12 * DigitsValue(year).value + m)
  {
    FirstSpaceAfterWord(name, year);
    var d := name + " " + year;
    assert d[..|name|] == name;
    assert d[|name| + 1..] == year;
  }

  /** A date whose first space follows a month name and precedes a number has the key of that month and year. */
  lemma DateKeyParts(date: string, i: nat, m: nat, y: nat)
    requires SpaceIndex(date) == Some(i)
    requires i < |date| && MonthIndex(date[..i]) == Some(m) && DigitsValue(date[i + 1..]) == Some(y)
    requires |date| == i + 5 && y >= 1000
    ensures DateKey(date) == Some(12 * y + m)
  {
  }

  /** A year written with two digits gets no key: the model does not guess the century. */
  lemma TwoDigitYearRefused(m: nat, year: string)
    requires m < 12 && |year| == 2
    ensures DateKey(MonthYear(m, year)).None?
  {
    MonthNamesRecognised(m);
    FirstSpaceAfterWord(MonthNames[m], year);
  }

  function DigitValue(c: char): nat
    requires IsDigit(c)
  {
    (c as int - '0' as int) as nat
  }

  /** A four-digit year reads as its decimal value. */
  lemma FourDigitYear(s: string)
    requires |s| == 4 && IsDigit(s[0]) && IsDigit(s[1]) && IsDigit(s[2]) && IsDigit(s[3])
    ensures DigitsValue(s)
      == Some(1000 * DigitValue(s[0]) + 100 * DigitValue(s[1]) + 10 * DigitValue(s[2]) + DigitValue(s[3]))
  {
    assert s[..3][..2][..1] == [s[0]];
    assert DigitsValue(s[..3][..2]) == Some(10 * DigitValue(s[0]) + DigitValue(s[1]));
    assert DigitsValue(s[..3]) == Some(100 * DigitValue(s[0]) + 10 * DigitValue(s[1]) + DigitValue(s[2]));
  }

  /** Keys order "Month YYYY" dates chronologically: by year, then by month. */
  lemma KeysAreChronological(m1: nat, y1: nat, m2: nat, y2: nat)
    requires m1 < 12 && m2 < 12
    ensures 12 * y1 + m1 < 12 * y2 + m2 <==> y1 < y2 || (y1 == y2 && m1 < m2)
  {
  }

  predicate Dated(p: Project) {
    DateKey(p.date).Some?
  }

  predicate AllDated(s: seq<Project>) {
    forall k :: 0 <= k < |s| ==> Dated(s[k])
  }

  /**
   * The value the comparator subtracts. A date that does not parse is NaN
   * in the source, whose comparisons make the order unspecified; the sort
   * below is only specified for dated projects, so -1 here is never
   * compared.
   */
  function Rank(p: Project): int {
    match DateKey(p.date)
    case Some(k) => k
    case None => -1
  }

  /** Newest first: no project is followed by a newer one. */
  predicate NewestFirst(s: seq<Project>) {
    Descending(s, Rank)
  }

  /** No element of `s` is followed by one of higher `rank`. */
  predicate Descending(s: seq<Project>, rank: Project -> int) {
    forall k, l :: 0 <= k < l < |s| ==> rank(s[k]) >= rank(s[l])
  }

  /** The projects of `s` whose `rank` is `key`, in their order in `s`. */
  function WithRank(s: seq<Project>, rank: Project -> int, key: int): seq<Project> {
    if s == [] then []
    else (if rank(s[0]) == key then [s[0]] else []) + WithRank(s[1..], rank, key)
  }

  /** Projects of equal `rank` come in the same relative order in `s` and in `t`. */
  ghost predicate SameOrderOfEquals(s: seq<Project>, t: seq<Project>, rank: Project -> int) {
    forall key :: WithRank(s, rank, key) == WithRank(t, rank, key)
  }

  lemma {:induction false} WithRankConcat(s: seq<Project>, t: seq<Project>, rank: Project -> int, key: int)
    ensures WithRank(s + t, rank, key) == WithRank(s, rank, key) + WithRank(t, rank, key)
    decreases |s|
  {
    if s == [] {
      assert s + t == t;
    } else {
      var head := if rank(s[0]) == key then [s[0]] else [];
      var rest := WithRank(s[1..], rank, key);
      assert (s + t)[0] == s[0] && (s + t)[1..] == s[1..] + t;
      WithRankConcat(s[1..], t, rank, key);
      calc {
        WithRank(s + t, rank, key);
        head + WithRank(s[1..] + t, rank, key);
        head + (rest + WithRank(t, rank, key));
        (head + rest) + WithRank(t, rank, key);
      }
    }
  }

  /** Two projects of different rank pick out the same projects of any rank in either order. */
  lemma PairOrderIrrelevant(x: Project, y: Project, rank: Project -> int, key: int)
    requires rank(x) != rank(y)
    ensures WithRank([x, y], rank, key) == WithRank([y, x], rank, key)
  {
    assert [x, y][1..] == [y] && [y, x][1..] == [x];
    assert [x][1..] == [] && [y][1..] == [];
  }

  /** Swapping two neighbours of different rank keeps the order of equal-ranked projects. */
  lemma SwapKeepsOrderOfEquals(s: seq<Project>, rank: Project -> int, j: nat)
    requires 0 < j < |s| && rank(s[j - 1]) != rank(s[j])
    ensures SameOrderOfEquals(s[j - 1 := s[j]][j := s[j - 1]], s, rank)
  {
    var t := s[j - 1 := s[j]][j := s[j - 1]];
    var pre, post := s[..j - 1], s[j + 1..];
    assert s == pre + [s[j - 1], s[j]] + post;
    assert t == pre + [s[j], s[j - 1]] + post;
    forall key
      ensures WithRank(t, rank, key) == WithRank(s, rank, key)
    {
      WithRankConcat(pre + [s[j - 1], s[j]], post, rank, key);
      WithRankConcat(pre, [s[j - 1], s[j]], rank, key);
      WithRankConcat(pre + [s[j], s[j - 1]], post, rank, key);
      WithRankConcat(pre, [s[j], s[j - 1]], rank, key);
      PairOrderIrrelevant(s[j - 1], s[j], rank, key);
    }
  }

  /**
   * `projects.sort((a, b) => dateB - dateA)`, which reorders the array in
   * place: afterwards the array holds the same projects, newest first, and
   * projects with the same date keep their order (the sort is stable).
   */
  method SortNewestFirst(a: array<Project>)
    requires AllDated(a[..])
    modifies a
    ensures NewestFirst(a[..])
    ensures multiset(a[..]) == multiset(old(a[..]))
    ensures SameOrderOfEquals(a[..], old(a[..]), Rank)
  {
    if a.Length == 0 {
      return;
    }
    var i := 1;
    while i < a.Length
      invariant 1 <= i <= a.Length
      invariant NewestFirst(a[..i])
      invariant multiset(a[..]) == multiset(old(a[..]))
      invariant SameOrderOfEquals(a[..], old(a[..]), Rank)
    {
      Insert(a, i, Rank);
      i := i + 1;
    }
    assert a[..] == a[..a.Length];
  }

  /**
   * The state of one insertion step: descending up to `i` apart from the
   * element at `j`, which ranks above everything after it up to `i`.
   */
  predicate Inserting(s: seq<Project>, rank: Project -> int, j: nat, i: nat)
    requires j <= i < |s|
  {
    && (forall k, l :: 0 <= k < l <= i && k != j && l != j ==> rank(s[k]) >= rank(s[l]))
    && (forall l :: j < l <= i ==> rank(s[j]) > rank(s[l]))
  }

  lemma InsertingStarts(s: seq<Project>, rank: Project -> int, i: nat)
    requires i < |s| && Descending(s[..i], rank)
    ensures Inserting(s, rank, i, i)
  {
    forall k, l | 0 <= k < l <= i && k != i && l != i
      ensures rank(s[k]) >= rank(s[l])
    {
      assert s[k] == s[..i][k] && s[l] == s[..i][l];
    }
  }

  lemma InsertingSwap(s: seq<Project>, rank: Project -> int, j: nat, i: nat)
    requires 0 < j <= i < |s| && Inserting(s, rank, j, i)
    requires rank(s[j - 1]) < rank(s[j])
    ensures Inserting(s[j - 1 := s[j]][j := s[j - 1]], rank, j - 1, i)
  {
  }

  lemma InsertingEnds(s: seq<Project>, rank: Project -> int, j: nat, i: nat)
    requires j <= i < |s| && Inserting(s, rank, j, i)
    requires j == 0 || rank(s[j - 1]) >= rank(s[j])
    ensures Descending(s[..i + 1], rank)
  {
  }

  lemma SwapPermutes(s: seq<Project>, j: nat)
    requires 0 < j < |s|
    ensures multiset(s[j - 1 := s[j]][j := s[j - 1]]) == multiset(s)
  {
  }

  /** The state of the insertion loop: `s` is `o` rearranged, with the order of equals kept. */
  ghost predicate InsertState(s: seq<Project>, o: seq<Project>, rank: Project -> int, j: nat, i: nat)
  {
    j <= i < |s| && Inserting(s, rank, j, i) && multiset(s) == multiset(o) && SameOrderOfEquals(s, o, rank)
  }

  /** One swap of the insertion step keeps its state. */
  lemma SwapStep(s: seq<Project>, o: seq<Project>, rank: Project -> int, j: nat, i: nat)
    requires 0 < j && InsertState(s, o, rank, j, i)
    requires rank(s[j - 1]) < rank(s[j])
    ensures InsertState(s[j - 1 := s[j]][j := s[j - 1]], o, rank, j - 1, i)
  {
    InsertingSwap(s, rank, j, i);
    SwapPermutes(s, j);
    SwapKeepsOrderOfEquals(s, rank, j);
  }

  /** Moves `a[i]` left past the elements of lower `rank` before it. */
  method Insert(a: array<Project>, i: nat, rank: Project -> int)
    requires i < a.Length
    requires Descending(a[..i], rank)
    modifies a
    ensures Descending(a[..i + 1], rank)
    ensures multiset(a[..]) == multiset(old(a[..]))
    ensures SameOrderOfEquals(a[..], old(a[..]), rank)
  {
    InsertingStarts(a[..], rank, i);
    var j := i;
    while j > 0 && rank(a[j - 1]) < rank(a[j])
      invariant 0 <= j <= i
      invariant InsertState(a[..], old(a[..]), rank, j, i)
    {
      SwapStep(a[..], old(a[..]), rank, j, i);
      a[j - 1], a[j] := a[j], a[j - 1];
      j := j - 1;
    }
    InsertingEnds(a[..], rank, j, i);
  }

  /**
   * The example ordering: "January 2023", "March 2024" and "June 2023" are
   * shown March 2024, June 2023, January 2023.
   */
  lemma ExampleOrder()
    ensures DateKey("March 2024").Some? && DateKey("June 2023").Some? && DateKey("January 2023").Some?
    ensures DateKey("March 2024").value > DateKey("June 2023").value > DateKey("January 2023").value
  {
    FourDigitYear("2024");
    FourDigitYear("2023");
    DateKeyOfMonthYear(2, "2024");
    DateKeyOfMonthYear(5, "2023");
    DateKeyOfMonthYear(0, "2023");
    ExampleDates();
  }

  lemma ExampleDates()
    ensures MonthYear(2, "2024") == "March 2024"
    ensures MonthYear(5, "2023") == "June 2023"
    ensures MonthYear(0, "2023") == "January 2023"
  {
  }
}
