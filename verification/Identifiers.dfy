/** Task, run and container identifiers (internal/catalog/catalog.go, internal/runner/runner.go,
    internal/sink/sink.go). */
module Identifiers {
  import opened Base
  import opened Text

  predicate IsAlnum(c: char) { IsUpper(c) || IsLower(c) || IsDigit(c) }

  /** `validID`: letters, digits and, behind the first character, also dot, underscore and hyphen. */
  predicate ValidID(value: string) {
    value != "" && IsAlnum(value[0]) &&
    forall i :: 0 < i < |value| ==> IsAlnum(value[i]) || value[i] in "._-"
  }

  predicate IsRunChar(c: char) { IsAlnum(c) || c in "-_.:" }

  /** `validRunID` of the sink. */
  predicate ValidRunID(value: string) {
    value != "" && forall i :: 0 <= i < |value| ==> IsRunChar(value[i])
  }

  // ----- run identifiers -----

  /** What `newRunID` draws from its surroundings: the wall clock, and six random bytes unless the source fails. */
  datatype Seed = Seed(year: nat, month: nat, day: nat, hour: nat, minute: nat, second: nat, unixNano: int,
                       random: Option<bytes>)

  function ZeroPad(s: string, width: nat): string
    decreases width - |s|
  {
    if |s| < width then ZeroPad("0" + s, width) else s
  }

  /** `20060102T150405Z` */
  function Stamp(seed: Seed): string {
    ZeroPad(Decimal(seed.year), 4) + ZeroPad(Decimal(seed.month), 2) + ZeroPad(Decimal(seed.day), 2) + "T"
    + ZeroPad(Decimal(seed.hour), 2) + ZeroPad(Decimal(seed.minute), 2) + ZeroPad(Decimal(seed.second), 2) + "Z"
  }

  function NewRunID(seed: Seed): string {
    match seed.random
    case None => Itoa(seed.unixNano)
    case Some(random) => Stamp(seed) + "-" + HexEncode(random)
  }

  ghost predicate AllRunChars(s: string) { forall c :: c in s ==> IsRunChar(c) }

  lemma {:induction false} ZeroPadRunChars(s: string, width: nat)
    requires AllRunChars(s)
    ensures AllRunChars(ZeroPad(s, width)) && |ZeroPad(s, width)| >= |s|
    decreases width - |s|
  {
    if |s| < width {
      ZeroPadRunChars("0" + s, width);
    }
  }

  lemma StampRunChars(seed: Seed)
    ensures AllRunChars(Stamp(seed))
  {
    ZeroPadRunChars(Decimal(seed.year), 4);
    ZeroPadRunChars(Decimal(seed.month), 2);
    ZeroPadRunChars(Decimal(seed.day), 2);
    ZeroPadRunChars(Decimal(seed.hour), 2);
    ZeroPadRunChars(Decimal(seed.minute), 2);
    ZeroPadRunChars(Decimal(seed.second), 2);
  }

  /** Every generated run ID, also the fallback without randomness, is made of characters the sink accepts. */
  lemma NewRunIDValid(seed: Seed)
    ensures ValidRunID(NewRunID(seed))
  {
    StampRunChars(seed);
    var id := NewRunID(seed);
    assert AllRunChars("-");
    assert AllRunChars(id) && id != "";
  }

  function TaskRunID(runID: string, taskID: string): string { runID + "-" + ToLower(taskID) }

  /** Every generated run ID and every valid task ID give an ID the sink accepts: registration cannot fail. */
  lemma TaskRunIDValid(seed: Seed, taskID: string)
    requires ValidID(taskID)
    ensures ValidRunID(TaskRunID(NewRunID(seed), taskID))
  {
    NewRunIDValid(seed);
    forall c | c in ToLower(taskID)
      ensures IsRunChar(c)
    {
      var i :| 0 <= i < |taskID| && c == LowerChar(taskID[i]);
      assert IsAlnum(taskID[i]) || taskID[i] in "._-";
    }
  }

  /** Two tasks share a sink run exactly when their IDs differ in case at most. */
  lemma TaskRunIDsCollideIff(runID: string, a: string, b: string)
    ensures TaskRunID(runID, a) == TaskRunID(runID, b) <==> ToLower(a) == ToLower(b)
  {
    var prefix := runID + "-";
    assert TaskRunID(runID, a)[|prefix|..] == ToLower(a);
    assert TaskRunID(runID, b)[|prefix|..] == ToLower(b);
  }

  /** Valid and distinct IDs that nevertheless share one sink run. */
  lemma CaseOnlyIDsCollide(runID: string)
    ensures ValidID("T1") && ValidID("t1") && "T1" != "t1"
    ensures TaskRunID(runID, "T1") == TaskRunID(runID, "t1")
  {
    assert "T1"[0] != "t1"[0];
    assert ToLower("T1") == ToLower("t1") == "t1";
  }

  // ----- container names -----

  function SafeID(value: string): string { ReplaceAll(ReplaceAll(value, "-", ""), ":", "") }

  function ContainerName(taskRunID: string): string { "holdout-" + SafeID(taskRunID) }

  /** `safeID`, two passes over the text. */
  method MakeSafeID(text: string) returns (value: string)
    ensures value == Stripped(text)
  {
    value := text;
    value := ReplaceAll(value, "-", "");
    value := ReplaceAll(value, ":", "");
    SafeIDIsStripped(text);
  }

  /** The characters of a text other than hyphen and colon, in order. */
  function Stripped(s: string): string {
    if s == "" then "" else (if s[0] == '-' || s[0] == ':' then "" else [s[0]]) + Stripped(s[1..])
  }

  function Without(s: string, c: char): string {
    if s == "" then "" else (if s[0] == c then "" else [s[0]]) + Without(s[1..], c)
  }

  lemma {:induction false} ReplaceWithNothing(s: string, c: char)
    ensures ReplaceAll(s, [c], "") == Without(s, c)
  {
    if s != "" {
      assert [c] <= s <==> s[0] == c;
      ReplaceWithNothing(s[1..], c);
    }
  }

  lemma {:induction false} SafeIDIsStripped(s: string)
    ensures SafeID(s) == Stripped(s)
  {
    ReplaceWithNothing(s, '-');
    ReplaceWithNothing(Without(s, '-'), ':');
    WithoutBoth(s);
  }

  lemma {:induction false} WithoutBoth(s: string)
    ensures Without(Without(s, '-'), ':') == Stripped(s)
  {
    if s != "" {
      WithoutBoth(s[1..]);
      if s[0] != '-' {
        assert Without(s, '-')[1..] == Without(s[1..], '-');
      } else {
        assert Without(s, '-') == Without(s[1..], '-');
      }
    }
  }

  lemma {:induction false} StrippedConcat(a: string, b: string)
    ensures Stripped(a + b) == Stripped(a) + Stripped(b)
  {
    if a == "" {
      assert a + b == b;
    } else {
      assert (a + b)[1..] == a[1..] + b;
      StrippedConcat(a[1..], b);
    }
  }

  /** Container names of one run coincide exactly when the lowered IDs agree up to hyphens and colons. */
  lemma ContainerNamesCollideIff(runID: string, a: string, b: string)
    ensures ContainerName(TaskRunID(runID, a)) == ContainerName(TaskRunID(runID, b))
       <==> Stripped(ToLower(a)) == Stripped(ToLower(b))
  {
    ContainerNameShape(runID, a);
    ContainerNameShape(runID, b);
    var prefix := "holdout-" + Stripped(runID);
    assert ContainerName(TaskRunID(runID, a))[|prefix|..] == Stripped(ToLower(a));
    assert ContainerName(TaskRunID(runID, b))[|prefix|..] == Stripped(ToLower(b));
  }

  lemma ContainerNameShape(runID: string, id: string)
    ensures ContainerName(TaskRunID(runID, id)) == "holdout-" + Stripped(runID) + Stripped(ToLower(id))
  {
    SafeIDIsStripped(TaskRunID(runID, id));
    StrippedConcat(runID + "-", ToLower(id));
    StrippedConcat(runID, "-");
    assert Stripped("-") == "";
  }

  /** Valid IDs with different sink runs but one container name. */
  lemma HyphenIDsShareContainer(runID: string)
    ensures ValidID("T-1") && ValidID("T1")
    ensures TaskRunID(runID, "T-1") != TaskRunID(runID, "T1")
    ensures ContainerName(TaskRunID(runID, "T-1")) == ContainerName(TaskRunID(runID, "T1"))
  {
    TaskRunIDsCollideIff(runID, "T-1", "T1");
    ContainerNamesCollideIff(runID, "T-1", "T1");
    var a, b := ToLower("T-1"), ToLower("T1");
    assert a == "t-1" && b == "t1";
    assert a[1..] == "-1" && a[1..][1..] == "1" && a[1..][1..][1..] == "";
    assert b[1..] == "1" && b[1..][1..] == "";
    assert Stripped("1") == "1";
    assert Stripped("-1") == "1";
  }

  // ----- the accepted characters, spelled out -----

  predicate LetterOrDigit(c: char) { 'a' <= c <= 'z' || 'A' <= c <= 'Z' || '0' <= c <= '9' }

  /** `[A-Za-z0-9][A-Za-z0-9._-]*` */
  ghost predicate TaskIDText(s: string) {
    s != "" && LetterOrDigit(s[0]) && forall c :: c in s ==> LetterOrDigit(c) || c == '.' || c == '_' || c == '-'
  }

  /** `[A-Za-z0-9._:-]+` */
  ghost predicate RunIDText(s: string) {
    s != "" && forall c :: c in s ==> LetterOrDigit(c) || c == '.' || c == '_' || c == '-' || c == ':'
  }

  lemma ValidIDIff(s: string)
    ensures ValidID(s) <==> TaskIDText(s)
  {
    if ValidID(s) {
      forall c | c in s
        ensures LetterOrDigit(c) || c == '.' || c == '_' || c == '-'
      {
        var i :| 0 <= i < |s| && s[i] == c;
      }
    }
    assert forall i :: 0 <= i < |s| ==> s[i] in s;
  }

  lemma ValidRunIDIff(s: string)
    ensures ValidRunID(s) <==> RunIDText(s)
  {
    if ValidRunID(s) {
      forall c | c in s
        ensures LetterOrDigit(c) || c == '.' || c == '_' || c == '-' || c == ':'
      {
        var i :| 0 <= i < |s| && s[i] == c;
      }
    }
    assert forall i :: 0 <= i < |s| ==> s[i] in s;
  }

  // ----- the shape of a run ID -----

  /** A number of at most `width` digits, with zeros in front. */
  ghost predicate Padded(n: nat, width: nat, s: string) {
    |s| == width && AllDigits(s) && DigitsValue(s) == n
  }

  lemma {:induction false} ZeroInFront(s: string)
    requires AllDigits(s)
    ensures AllDigits("0" + s) && DigitsValue("0" + s) == DigitsValue(s)
  {
    var t := "0" + s;
    if s == "" {
      assert t[..0] == "";
    } else {
      ZeroInFront(s[..|s| - 1]);
      assert t[..|t| - 1] == "0" + s[..|s| - 1];
    }
  }

  lemma {:induction false} ZeroPadPads(s: string, width: nat)
    requires AllDigits(s) && |s| <= width
    ensures Padded(DigitsValue(s), width, ZeroPad(s, width))
    decreases width - |s|
  {
    if |s| < width {
      ZeroInFront(s);
      ZeroPadPads("0" + s, width);
    }
  }

  lemma {:induction false} DecimalShort(n: nat, width: nat)
    requires 1 <= width <= 4 && n < [10, 100, 1000, 10000][width - 1]
    ensures |Decimal(n)| <= width
  {
    if n >= 10 {
      DecimalShort(n / 10, width - 1);
    }
  }

  lemma PaddedDecimal(n: nat, width: nat)
    requires (width == 2 && n < 100) || (width == 4 && n < 10000)
    ensures Padded(n, width, ZeroPad(Decimal(n), width))
  {
    DecimalShort(n, width);
    DecimalValue(n);
    ZeroPadPads(Decimal(n), width);
  }

  /** The date and time of a seed are within what four and two digits can hold. */
  predicate OnCalendar(seed: Seed) {
    seed.year < 10000 && seed.month < 100 && seed.day < 100 && seed.hour < 100 && seed.minute < 100 && seed.second < 100
  }

  /** `YYYYMMDDTHHMMSSZ-` and the random bytes in hex; without randomness the nanoseconds. */
  lemma RunIDShape(seed: Seed)
    requires OnCalendar(seed)
    ensures seed.random.Some? ==>
      exists y, mo, d, h, mi, s ::
        Padded(seed.year, 4, y) && Padded(seed.month, 2, mo) && Padded(seed.day, 2, d) && Padded(seed.hour, 2, h) &&
        Padded(seed.minute, 2, mi) && Padded(seed.second, 2, s) &&
        NewRunID(seed) == y + mo + d + "T" + h + mi + s + "Z" + "-" + HexEncode(seed.random.value)
    ensures seed.random.None? && seed.unixNano >= 0 ==> NewRunID(seed) == Decimal(seed.unixNano)
  {
    hide ZeroPad, Decimal, DigitsValue, AllDigits;
    PaddedDecimal(seed.year, 4);
    PaddedDecimal(seed.month, 2);
    PaddedDecimal(seed.day, 2);
    PaddedDecimal(seed.hour, 2);
    PaddedDecimal(seed.minute, 2);
    PaddedDecimal(seed.second, 2);
  }

  /** The sink run of a task is the run ID, a hyphen and the lowered task ID; its container bears both without hyphens
      and colons. */
  lemma NamesOfTask(runID: string, id: string)
    ensures TaskRunID(runID, id) == runID + "-" + ToLower(id)
    ensures ContainerName(TaskRunID(runID, id)) == "holdout-" + Stripped(runID) + Stripped(ToLower(id))
  {
    ContainerNameShape(runID, id);
  }
}
