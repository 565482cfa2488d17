/** The hostname sanitiser of src/infrastructure/browser/DomainNormalizerAdapter.ts. Its limits of
  63 characters a label and 253 in all are those of section 2.3.4 of RFC 1035. */
module Hostname {
  import opened Strings

  const MAX_LABEL := 63
  const MAX_LABELS := 127
  const MAX_NAME := 253

  predicate IsHostChar(c: char) {
    'a' <= c <= 'z' || '0' <= c <= '9' || c == '-'
  }

  /** Drops every character that cannot stand in a label. */
  function Clean(piece: string): string {
    if piece == [] then [] else (if IsHostChar(piece[0]) then [piece[0]] else []) + Clean(piece[1..])
  }

  function CleanAll(labels: seq<string>): (cleaned: seq<string>)
    ensures |cleaned| == |labels|
  {
    seq(|labels|, i requires 0 <= i < |labels| => Clean(labels[i]))
  }

  /** The labels of a text before the unfit ones are dropped. */
  function Cleaned(host: string): (labels: seq<string>)
    ensures labels != []
  {
    CleanAll(Split(host, '.'))
  }

  predicate Fits(piece: string) {
    0 < |piece| <= MAX_LABEL
  }

  function Fitting(labels: seq<string>): seq<string> {
    if labels == [] then [] else (if Fits(labels[0]) then [labels[0]] else []) + Fitting(labels[1..])
  }

  function Take<T>(s: seq<T>, n: nat): seq<T> {
    if |s| <= n then s else s[..n]
  }

  /** The labels the name is made of, before either cap. */
  function Labels(host: string): seq<string> {
    Fitting(Cleaned(host))
  }

  function Sanitize(host: string): string {
    Take(Join(Take(Labels(host), MAX_LABELS), '.'), MAX_NAME)
  }

  // ---- What the labels are ----

  ghost predicate AllHostChars(s: string) {
    forall i :: 0 <= i < |s| ==> IsHostChar(s[i])
  }

  ghost predicate WellFormedLabels(labels: seq<string>) {
    forall i :: 0 <= i < |labels| ==> Fits(labels[i]) && AllHostChars(labels[i])
  }

  lemma {:induction false} CleanIsClean(piece: string)
    ensures AllHostChars(Clean(piece))
    ensures AllHostChars(piece) ==> Clean(piece) == piece
    decreases |piece|
  {
    if piece != [] {
      CleanIsClean(piece[1..]);
    }
  }

  lemma {:induction false} FittingFits(labels: seq<string>)
    requires forall i :: 0 <= i < |labels| ==> AllHostChars(labels[i])
    ensures WellFormedLabels(Fitting(labels))
    ensures WellFormedLabels(labels) ==> Fitting(labels) == labels
    decreases |labels|
  {
    if labels != [] {
      FittingFits(labels[1..]);
    }
  }

  lemma LabelsAreWellFormed(host: string)
    ensures WellFormedLabels(Labels(host))
  {
    var pieces := Split(host, '.');
    forall i | 0 <= i < |pieces|
      ensures AllHostChars(CleanAll(pieces)[i])
    {
      CleanIsClean(pieces[i]);
    }
    FittingFits(CleanAll(pieces));
  }

  // ---- The cap on the number of labels is redundant ----

  lemma {:induction false} JoinLength(labels: seq<string>)
    requires WellFormedLabels(labels) && labels != []
    ensures |Join(labels, '.')| >= 2 * |labels| - 1
    decreases |labels|
  {
    if |labels| > 1 {
      JoinLength(labels[1..]);
    }
  }

  lemma TakeOfLonger(x: string, y: string, n: nat)
    requires n <= |x|
    ensures Take(x + y, n) == Take(x, n)
  {
    assert (x + y)[..n] == x[..n];
    assert |x| == n ==> x[..n] == x;
    assert |x + y| == n ==> x + y == x;
  }

  lemma LabelCapCutsNothing(labels: seq<string>)
    requires WellFormedLabels(labels)
    ensures Take(Join(Take(labels, MAX_LABELS), '.'), MAX_NAME) == Take(Join(labels, '.'), MAX_NAME)
  {
    if |labels| > MAX_LABELS {
      var kept, rest := labels[..MAX_LABELS], labels[MAX_LABELS..];
      JoinLength(kept);
      assert labels == kept + rest;
      JoinAppend(kept, rest, '.');
      assert Join(labels, '.') == Join(kept, '.') + (['.'] + Join(rest, '.'));
      TakeOfLonger(Join(kept, '.'), ['.'] + Join(rest, '.'), MAX_NAME);
    }
  }

  /** 127 non-empty labels already fill the 253 characters, so the name is simply the cut of all
      the labels joined. */
  lemma LabelCapIsRedundant(host: string)
    ensures Sanitize(host) == Take(Join(Labels(host), '.'), MAX_NAME)
  {
    LabelsAreWellFormed(host);
    LabelCapCutsNothing(Labels(host));
  }

  // ---- The shape of the result ----

  /** Whole labels, then one that may have lost its end or be gone but for its dot. */
  ghost predicate Shape(name: string, whole: seq<string>, last: string) {
    && Split(name, '.') == whole + [last]
    && WellFormedLabels(whole) && AllHostChars(last) && |last| <= MAX_LABEL
    && |whole| < MAX_LABELS && |name| <= MAX_NAME
  }

  lemma SanitizedShape(host: string) returns (whole: seq<string>, last: string)
    ensures Shape(Sanitize(host), whole, last)
  {
    LabelsAreWellFormed(host);
    whole, last := CutShape(Take(Labels(host), MAX_LABELS));
  }

  lemma CutShape(labels: seq<string>) returns (whole: seq<string>, last: string)
    requires WellFormedLabels(labels) && |labels| <= MAX_LABELS
    ensures Shape(Take(Join(labels, '.'), MAX_NAME), whole, last)
  {
    var name := Join(labels, '.');
    if labels == [] {
      whole, last := [], "";
      SplitPiece("", '.');
    } else {
      var n := |Take(name, MAX_NAME)|;
      assert Take(name, MAX_NAME) == name[..n];
      var k, m := CutJoin(labels, '.', n);
      whole, last := labels[..k], labels[k][..m];
    }
  }

  // ---- What is kept, and what is dropped ----

  const LETTERS := "abcdefghijklmnopqrstuvwxyz"

  const DIGITS := "0123456789"

  predicate Legal(c: char) {
    c in LETTERS || c in DIGITS || c == '-'
  }

  lemma LetterIff(c: char)
    ensures 'a' <= c <= 'z' <==> c in LETTERS
  {
    if 'a' <= c <= 'z' {
      assert LETTERS[c as int - 'a' as int] == c;
    }
  }

  lemma DigitIff(c: char)
    ensures '0' <= c <= '9' <==> c in DIGITS
  {
    if '0' <= c <= '9' {
      assert DIGITS[c as int - '0' as int] == c;
    }
  }

  lemma HostCharIff(c: char)
    ensures IsHostChar(c) <==> Legal(c)
  {
    LetterIff(c);
    DigitIff(c);
  }

  /** Labels that may stand in a name: one to 63 small letters, digits and hyphens. */
  ghost predicate LegalLabel(s: string) {
    1 <= |s| <= 63 && forall c :: c in s ==> Legal(c)
  }

  lemma LegalIsWellFormed(labels: seq<string>)
    requires forall s :: s in labels ==> LegalLabel(s)
    ensures WellFormedLabels(labels)
  {
    forall i | 0 <= i < |labels|
      ensures Fits(labels[i]) && AllHostChars(labels[i])
    {
      assert LegalLabel(labels[i]);
      forall k | 0 <= k < |labels[i]|
        ensures IsHostChar(labels[i][k])
      {
        HostCharIff(labels[i][k]);
      }
    }
  }

  /** A legal name comes back unchanged, or cut at 253 characters. */
  lemma LegalNameIsKept(labels: seq<string>)
    requires labels != [] && forall s :: s in labels ==> LegalLabel(s)
    ensures var name := Join(labels, '.');
            Sanitize(name) == if |name| <= 253 then name else name[..253]
  {
    LegalIsWellFormed(labels);
    LabelsOfJoined(labels);
    LabelCapIsRedundant(Join(labels, '.'));
  }

  /** What one more character in front makes of the cleaned labels. */
  function Prefixed(x: char, labels: seq<string>): seq<string>
    requires labels != []
  {
    if x == '.' then [""] + labels
    else if IsHostChar(x) then [[x] + labels[0]] + labels[1..]
    else labels
  }

  lemma CleanedStep(x: char, rest: string)
    ensures Cleaned([x] + rest) == Prefixed(x, Cleaned(rest))
  {
    var host, pieces := [x] + rest, Split(rest, '.');
    assert host[1..] == rest;
    if x == '.' {
      assert Split(host, '.') == [""] + pieces;
      assert CleanAll([""] + pieces) == [""] + CleanAll(pieces);
    } else {
      var first := [x] + pieces[0];
      assert first[1..] == pieces[0];
      assert Split(host, '.') == [first] + pieces[1..];
      var labels := CleanAll(pieces);
      assert CleanAll([first] + pieces[1..]) == [Clean(first)] + labels[1..];
      assert Clean(first) == if IsHostChar(x) then [x] + labels[0] else labels[0];
      assert [labels[0]] + labels[1..] == labels;
    }
  }

  lemma {:induction false} CleanedWithout(before: string, c: char, after: string)
    requires c != '.' && !IsHostChar(c)
    ensures Cleaned(before + [c] + after) == Cleaned(before + after)
    decreases |before|
  {
    if before == [] {
      CleanedStep(c, after);
      assert before + [c] + after == [c] + after && before + after == after;
    } else {
      var x, rest := before[0], before[1..];
      CleanedWithout(rest, c, after);
      CleanedStep(x, rest + [c] + after);
      CleanedStep(x, rest + after);
      assert before == [x] + rest;
      assert [x] + rest + [c] + after == [x] + (rest + [c] + after) && [x] + rest + after == [x] + (rest + after);
    }
  }

  /** Any other character but the dot vanishes, wherever it stands. */
  lemma IllegalCharacterVanishes(before: string, c: char, after: string)
    requires !Legal(c) && c != '.'
    ensures Sanitize(before + [c] + after) == Sanitize(before + after)
  {
    HostCharIff(c);
    CleanedWithout(before, c, after);
  }

  lemma {:induction false} FittingWithout(xs: seq<string>, bad: string, ys: seq<string>)
    requires !Fits(bad)
    ensures Fitting(xs + [bad] + ys) == Fitting(xs + ys)
    decreases |xs|
  {
    if xs == [] {
      assert xs + [bad] + ys == [bad] + ys && xs + ys == ys;
      assert ([bad] + ys)[1..] == ys;
    } else {
      FittingWithout(xs[1..], bad, ys);
      assert (xs + [bad] + ys)[1..] == xs[1..] + [bad] + ys && (xs + ys)[1..] == xs[1..] + ys;
    }
  }

  /** And so does a label that is empty or longer than 63 characters; the rest of the name stays. */
  lemma UnfitLabelVanishes(xs: seq<string>, bad: string, ys: seq<string>)
    requires bad == "" || (|bad| > 63 && forall c :: c in bad ==> Legal(c))
    requires xs + ys != [] && forall s :: s in xs || s in ys ==> '.' !in s
    ensures Sanitize(Join(xs + [bad] + ys, '.')) == Sanitize(Join(xs + ys, '.'))
  {
    var all := xs + [bad] + ys;
    forall k | 0 <= k < |bad|
      ensures IsHostChar(bad[k])
    {
      HostCharIff(bad[k]);
    }
    CleanIsClean(bad);
    assert '.' !in bad;
    SplitJoin(all, '.');
    SplitJoin(xs + ys, '.');
    CleanAllOf(xs, bad, ys);
    FittingWithout(CleanAll(xs), bad, CleanAll(ys));
  }

  lemma CleanAllOf(xs: seq<string>, bad: string, ys: seq<string>)
    requires Clean(bad) == bad
    ensures CleanAll(xs + [bad] + ys) == CleanAll(xs) + [bad] + CleanAll(ys)
    ensures CleanAll(xs + ys) == CleanAll(xs) + CleanAll(ys)
  {
  }

  predicate EndsWithDot(name: string) {
    name != [] && name[|name| - 1] == '.'
  }

  /** Every result keeps to the limits: at most 253 characters, labels of at most 63 characters
      from a to z, 0 to 9 and the hyphen, and no empty label except after a final dot. */
  lemma SanitizedIsWellFormed(host: string)
    ensures |Sanitize(host)| <= 253
    ensures var labels := Split(Sanitize(host), '.');
            && (forall i :: 0 <= i < |labels| ==> |labels[i]| <= 63)
            && (forall i, c :: 0 <= i < |labels| && c in labels[i] ==> Legal(c))
            && (forall i :: 0 <= i < |labels| - 1 ==> labels[i] != [])
            && |labels| <= MAX_LABELS
  {
    var whole, last := SanitizedShape(host);
    var labels := Split(Sanitize(host), '.');
    forall i, c | 0 <= i < |labels| && c in labels[i]
      ensures Legal(c)
    {
      HostCharIff(c);
      assert AllHostChars(labels[i]);
    }
  }

  lemma LastPieceEmptyIff(name: string, whole: seq<string>, last: string)
    requires Shape(name, whole, last)
    ensures last == [] && whole != [] <==> EndsWithDot(name)
    ensures name == if whole == [] then last else Join(whole, '.') + ['.'] + last
  {
    JoinSplit(name, '.');
    if whole != [] {
      JoinAppend(whole, [last], '.');
    } else {
      assert whole + [last] == [last];
      if last != [] {
        assert IsHostChar(last[|last| - 1]);
      }
    }
    if whole != [] && last != [] {
      assert name[|name| - 1] == last[|last| - 1];
    }
  }

  lemma LabelsShaped(name: string, whole: seq<string>, last: string)
    requires Shape(name, whole, last)
    ensures Labels(name) == if last == [] then whole else whole + [last]
  {
    var pieces := whole + [last];
    forall i | 0 <= i < |pieces|
      ensures Clean(pieces[i]) == pieces[i]
    {
      CleanIsClean(pieces[i]);
    }
    assert CleanAll(pieces) == pieces;
    FittingSnoc(whole, last);
  }

  /** A text of that shape is only changed by losing its final dot. */
  lemma SanitizeShaped(name: string, whole: seq<string>, last: string)
    requires Shape(name, whole, last)
    ensures Sanitize(name) == if EndsWithDot(name) then name[..|name| - 1] else name
  {
    JoinsBack(name, whole, last);
    LabelsShaped(name, whole, last);
  }

  lemma JoinsBack(name: string, whole: seq<string>, last: string)
    requires Shape(name, whole, last)
    ensures Join(Labels(name), '.') == if EndsWithDot(name) then name[..|name| - 1] else name
  {
    LabelsShaped(name, whole, last);
    LastPieceEmptyIff(name, whole, last);
    if whole != [] {
      JoinAppend(whole, [last], '.');
    }
  }

  lemma {:induction false} FittingSnoc(whole: seq<string>, last: string)
    requires WellFormedLabels(whole) && AllHostChars(last) && |last| <= MAX_LABEL
    ensures Fitting(whole + [last]) == if last == [] then whole else whole + [last]
    decreases |whole|
  {
    if whole != [] {
      FittingSnoc(whole[1..], last);
      assert (whole + [last])[1..] == whole[1..] + [last];
    }
  }

  // ---- Repeated application ----

  /** A second application only drops a dot that the cut left at the end. */
  lemma SecondApplication(host: string)
    ensures var name := Sanitize(host);
            Sanitize(name) == if EndsWithDot(name) then name[..|name| - 1] else name
  {
    var whole, last := SanitizedShape(host);
    SanitizeShaped(Sanitize(host), whole, last);
  }

  lemma NoDoubleDot(host: string)
    ensures var name := Sanitize(host);
            EndsWithDot(name) ==> !EndsWithDot(name[..|name| - 1])
  {
    var name := Sanitize(host);
    var whole, last := SanitizedShape(host);
    LastPieceEmptyIff(name, whole, last);
    if EndsWithDot(name) {
      var k := |whole| - 1;
      if k > 0 {
        JoinAppend(whole[..k], [whole[k]], '.');
        assert whole[..k] + [whole[k]] == whole;
      } else {
        assert whole == [whole[0]];
      }
      var body := Join(whole, '.');
      assert body[|body| - 1] == whole[k][|whole[k]| - 1];
      assert name[..|name| - 1] == body;
    }
  }

  /** A third application changes nothing. */
  lemma ThirdApplication(host: string)
    ensures Sanitize(Sanitize(Sanitize(host))) == Sanitize(Sanitize(host))
  {
    SecondApplication(host);
    SecondApplication(Sanitize(host));
    NoDoubleDot(host);
  }

  /** The sanitiser is idempotent on exactly the inputs whose labels, joined, do not have a dot
      as the 253rd of more than 253 characters. */
  lemma IdempotentIff(host: string)
    ensures Sanitize(Sanitize(host)) == Sanitize(host)
            <==> !(|Join(Labels(host), '.')| > MAX_NAME && Join(Labels(host), '.')[MAX_NAME - 1] == '.')
  {
    SecondApplication(host);
    LabelCapIsRedundant(host);
    LabelsAreWellFormed(host);
    var labels := Labels(host);
    var all := Join(labels, '.');
    if |all| <= MAX_NAME && labels != [] {
      EndsWithoutDot(labels);
    }
  }

  lemma EndsWithoutDot(labels: seq<string>)
    requires WellFormedLabels(labels) && labels != []
    ensures !EndsWithDot(Join(labels, '.'))
  {
    var k := |labels| - 1;
    if k > 0 {
      JoinAppend(labels[..k], [labels[k]], '.');
      assert labels[..k] + [labels[k]] == labels;
    } else {
      assert labels == [labels[0]];
    }
    assert IsHostChar(labels[k][|labels[k]| - 1]);
  }

  /** A name made of well-formed labels is read back as those labels. */
  lemma LabelsOfJoined(labels: seq<string>)
    requires WellFormedLabels(labels) && labels != []
    ensures Labels(Join(labels, '.')) == labels
  {
    SplitJoin(labels, '.');
    forall i | 0 <= i < |labels|
      ensures Clean(labels[i]) == labels[i]
    {
      CleanIsClean(labels[i]);
    }
    assert CleanAll(labels) == labels;
    FittingFits(labels);
  }

  /** The sanitiser is not idempotent: a name whose labels end right before its 253rd character
      and go on after it comes back with a final dot. */
  lemma NotIdempotent(kept: seq<string>, rest: seq<string>)
    requires WellFormedLabels(kept + rest) && kept != [] && rest != []
    requires |Join(kept, '.')| == MAX_NAME - 1
    ensures var host := Join(kept + rest, '.'); Sanitize(Sanitize(host)) != Sanitize(host)
  {
    LabelsOfJoined(kept + rest);
    JoinAppend(kept, rest, '.');
    assert (kept + rest)[|kept|] == rest[0] && Fits(rest[0]);
    JoinLengthAtLeast(rest);
    IdempotentIff(Join(kept + rest, '.'));
  }

  lemma JoinLengthAtLeast(labels: seq<string>)
    requires labels != [] && labels[0] != []
    ensures Join(labels, '.') != []
  {
  }

  function As(n: nat): string {
    seq(n, _ => 'a')
  }

  /** Such a name: labels of 63, 63, 63, 60 and 1 characters. */
  lemma NotIdempotentExample()
    ensures var kept := [As(63), As(63), As(63), As(60)];
            && WellFormedLabels(kept + [As(1)]) && |Join(kept, '.')| == MAX_NAME - 1
  {
    var kept := [As(63), As(63), As(63), As(60)];
    assert kept[1..] == [As(63), As(63), As(60)];
    assert kept[1..][1..] == [As(63), As(60)];
    assert kept[1..][1..][1..] == [As(60)];
  }
}
