/**
 What request and response bodies look like in the log: redaction of sensitive keys, then truncation. A body
 is a string of bytes, one character for each, so lengths and ends count bytes. The keys and texts inside a
 tree are strings of characters, which parsing and printing decode and encode.
 */
module LogBody {
  import opened Basics

  datatype Json =
    | Null
    | Bool(value: bool)
    | Num(float64: bv64)
    | Str(text: string)
    | Arr(items: seq<Json>)
    | Obj(fields: map<string, Json>)

  const MAX_BODY_LOG_BYTES := 512
  const MAX_ARRAY_LOG_ITEMS := 6
  const REDACTED := Str("[REDACTED]")

  // ---- Sensitive keys ----

  const SENSITIVE_PARTS: seq<string> := ["password", "token", "secret", "email"]

  /**
   Lower case as far as it can produce one of the letters a to z: besides A to Z that is the dotted capital I
   and the Kelvin sign. No other character has one of these letters as its lower case.
   */
  function Lower(c: char): char {
    if 'A' <= c <= 'Z' then (c as int + 32) as char
    else if c == '\U{0130}' then 'i'
    else if c == '\U{212A}' then 'k'
    else c
  }

  function ToLower(s: string): (r: string)
    ensures |r| == |s|
  {
    seq(|s|, i requires 0 <= i < |s| => Lower(s[i]))
  }

  predicate Sensitive(key: string) {
    exists j :: 0 <= j < |SENSITIVE_PARTS| && Contains(ToLower(key), SENSITIVE_PARTS[j])
  }

  method IsSensitiveLogKey(key: string) returns (sensitive: bool)
    ensures sensitive == Sensitive(key)
    ensures sensitive <==> Writes(key, "password") || Writes(key, "token") || Writes(key, "secret") || Writes(key, "email")
  {
    SensitiveIff(key);
    var k := ToLower(key);
    for j := 0 to |SENSITIVE_PARTS|
      invariant forall i :: 0 <= i < j ==> !Contains(k, SENSITIVE_PARTS[i])
    {
      if Contains(k, SENSITIVE_PARTS[j]) {
        return true;
      }
    }
    return false;
  }

  /** The character is a letter from a to z or its capital: the ASCII one, dotted I for i, or the Kelvin sign for k. */
  predicate WritesLetter(c: char, letter: char) {
    || c == letter
    || ('a' <= letter <= 'z' && c as int == letter as int - 32)
    || (letter == 'i' && c == '\U{0130}')
    || (letter == 'k' && c == '\U{212A}')
  }

  /** The part is written at that place, each letter small or capital. */
  predicate WrittenAt(key: string, part: string, i: int) {
    0 <= i <= |key| - |part| && forall j :: 0 <= j < |part| ==> WritesLetter(key[i + j], part[j])
  }

  predicate Writes(key: string, part: string) { exists i :: 0 <= i <= |key| - |part| && WrittenAt(key, part, i) }

  predicate SmallLetters(part: string) { forall j :: 0 <= j < |part| ==> 'a' <= part[j] <= 'z' }

  lemma LowerOccursIff(key: string, part: string, i: nat)
    requires SmallLetters(part) && i + |part| <= |key|
    ensures OccursAt(ToLower(key), part, i) <==> WrittenAt(key, part, i)
  {
    var low := ToLower(key);
    forall j | 0 <= j < |part| ensures low[i..i + |part|][j] == part[j] <==> WritesLetter(key[i + j], part[j]) {
      assert low[i..i + |part|][j] == Lower(key[i + j]);
    }
    assert OccursAt(low, part, i) <==> forall j :: 0 <= j < |part| ==> low[i..i + |part|][j] == part[j];
  }

  lemma ContainsIff(key: string, part: string)
    requires SmallLetters(part)
    ensures Contains(ToLower(key), part) <==> Writes(key, part)
  {
    forall i | 0 <= i <= |key| - |part| ensures OccursAt(ToLower(key), part, i) <==> WrittenAt(key, part, i) {
      LowerOccursIff(key, part, i);
    }
  }

  /** A key is sensitive exactly if one of four words is written in it, whatever the case of each of its letters. */
  lemma SensitiveIff(key: string)
    ensures Sensitive(key) <==> Writes(key, "password") || Writes(key, "token") || Writes(key, "secret") || Writes(key, "email")
  {
    ContainsIff(key, SENSITIVE_PARTS[0]);
    ContainsIff(key, SENSITIVE_PARTS[1]);
    ContainsIff(key, SENSITIVE_PARTS[2]);
    ContainsIff(key, SENSITIVE_PARTS[3]);
    assert Sensitive(key) <==> || Contains(ToLower(key), SENSITIVE_PARTS[0]) || Contains(ToLower(key), SENSITIVE_PARTS[1])
                               || Contains(ToLower(key), SENSITIVE_PARTS[2]) || Contains(ToLower(key), SENSITIVE_PARTS[3]);
  }

  /** A key that is sensitive in small letters is so whatever letters are written as capitals, and so is every key that contains it. */
  lemma SensitiveInside(prefix: string, low: string, key: string, suffix: string)
    requires Contains(low, "password") || Contains(low, "token") || Contains(low, "secret") || Contains(low, "email")
    requires |key| == |low| && forall i :: 0 <= i < |key| ==> WritesLetter(key[i], low[i])
    ensures Sensitive(prefix + key + suffix)
  {
    SensitiveIff(prefix + key + suffix);
    if Contains(low, "password") {
      WrittenInside(prefix, low, key, suffix, "password");
    } else if Contains(low, "token") {
      WrittenInside(prefix, low, key, suffix, "token");
    } else if Contains(low, "secret") {
      WrittenInside(prefix, low, key, suffix, "secret");
    } else {
      WrittenInside(prefix, low, key, suffix, "email");
    }
  }

  lemma WrittenInside(prefix: string, low: string, key: string, suffix: string, part: string)
    requires Contains(low, part) && |key| == |low| && forall i :: 0 <= i < |key| ==> WritesLetter(key[i], low[i])
    ensures Writes(prefix + key + suffix, part)
  {
    var i :| 0 <= i <= |low| - |part| && OccursAt(low, part, i);
    var whole := prefix + key + suffix;
    forall j | 0 <= j < |part| ensures WritesLetter(whole[|prefix| + i + j], part[j]) {
      assert low[i..i + |part|][j] == low[i + j];
    }
    assert WrittenAt(whole, part, |prefix| + i);
  }

  lemma EllipsisIsNotSensitive()
    ensures !Sensitive("...")
  {
    assert ToLower("...") == "...";
  }

  // ---- Redaction ----

  function Redact(v: Json): Json {
    match v
    case Arr(items) => Arr(seq(|items|, i requires 0 <= i < |items| => Redact(items[i])))
    case Obj(fields) => Obj(map k | k in fields :: if Sensitive(k) then REDACTED else Redact(fields[k]))
    case _ => v
  }

  /** No sensitive key, at any depth, holds anything but the redaction mark. */
  predicate Clean(v: Json) {
    match v
    case Arr(items) => forall i :: 0 <= i < |items| ==> Clean(items[i])
    case Obj(fields) => forall k :: k in fields ==> if Sensitive(k) then fields[k] == Str("[REDACTED]") else Clean(fields[k])
    case _ => true
  }

  /** The two trees differ at most in what they hold under sensitive keys. */
  predicate SameOutside(v: Json, w: Json) {
    match (v, w)
    case (Arr(items), Arr(items')) => |items| == |items'| && forall i :: 0 <= i < |items| ==> SameOutside(items[i], items'[i])
    case (Obj(fields), Obj(fields')) =>
      fields.Keys == fields'.Keys && forall k :: k in fields && !Sensitive(k) ==> SameOutside(fields[k], fields'[k])
    case _ => v == w
  }

  lemma {:induction false} RedactIsClean(v: Json)
    ensures Clean(Redact(v))
  {
    match v {
      case Arr(items) => forall i | 0 <= i < |items| ensures Clean(Redact(items[i])) { RedactIsClean(items[i]); }
      case Obj(fields) => forall k | k in fields ensures Clean(Redact(fields[k])) { RedactIsClean(fields[k]); }
      case _ =>
    }
  }

  /** Redaction changes exactly the trees that hold something under a sensitive key. */
  lemma {:induction false} RedactFixesClean(v: Json)
    ensures Redact(v) == v <==> Clean(v)
  {
    match v {
      case Arr(items) =>
        forall i | 0 <= i < |items| ensures Redact(items[i]) == items[i] <==> Clean(items[i]) { RedactFixesClean(items[i]); }
        assert Redact(v) == v <==> forall i :: 0 <= i < |items| ==> Redact(v).items[i] == items[i];
      case Obj(fields) =>
        forall k | k in fields ensures Redact(fields[k]) == fields[k] <==> Clean(fields[k]) { RedactFixesClean(fields[k]); }
        assert Redact(v) == v <==> forall k :: k in fields ==> Redact(v).fields[k] == fields[k];
      case _ =>
    }
  }

  lemma RedactIdempotent(v: Json)
    ensures Redact(Redact(v)) == Redact(v)
  {
    RedactIsClean(v);
    RedactFixesClean(Redact(v));
  }

  /**
   Two trees are redacted alike exactly when they differ only under sensitive keys: nothing under such a
   key shows, at any depth, and nothing else is lost.
   */
  lemma {:induction false} RedactHidesExactlyTheSensitive(v: Json, w: Json)
    ensures Redact(v) == Redact(w) <==> SameOutside(v, w)
    decreases v
  {
    if v.Arr? && w.Arr? {
      forall i | 0 <= i < |v.items| && i < |w.items| ensures Redact(v.items[i]) == Redact(w.items[i]) <==> SameOutside(v.items[i], w.items[i]) {
        RedactHidesExactlyTheSensitive(v.items[i], w.items[i]);
      }
      ArraysRedactedAlike(v.items, w.items);
    } else if v.Obj? && w.Obj? {
      forall k | k in v.fields && k in w.fields ensures Redact(v.fields[k]) == Redact(w.fields[k]) <==> SameOutside(v.fields[k], w.fields[k]) {
        RedactHidesExactlyTheSensitive(v.fields[k], w.fields[k]);
      }
      ObjectsRedactedAlike(v.fields, w.fields);
    }
  }

  lemma ArraysRedactedAlike(items: seq<Json>, items': seq<Json>)
    requires forall i :: 0 <= i < |items| && i < |items'| ==> (Redact(items[i]) == Redact(items'[i]) <==> SameOutside(items[i], items'[i]))
    ensures Redact(Arr(items)) == Redact(Arr(items')) <==> SameOutside(Arr(items), Arr(items'))
  {
    var r, r' := Redact(Arr(items)).items, Redact(Arr(items')).items;
    assert |r| == |items| && |r'| == |items'|;
    if |items| == |items'| {
      assert r == r' <==> forall i :: 0 <= i < |items| ==> r[i] == r'[i];
      assert forall i :: 0 <= i < |items| ==> r[i] == Redact(items[i]) && r'[i] == Redact(items'[i]);
    }
  }

  lemma ObjectsRedactedAlike(fields: map<string, Json>, fields': map<string, Json>)
    requires forall k :: k in fields && k in fields' ==> (Redact(fields[k]) == Redact(fields'[k]) <==> SameOutside(fields[k], fields'[k]))
    ensures Redact(Obj(fields)) == Redact(Obj(fields')) <==> SameOutside(Obj(fields), Obj(fields'))
  {
    var r, r' := Redact(Obj(fields)).fields, Redact(Obj(fields')).fields;
    assert r.Keys == fields.Keys && r'.Keys == fields'.Keys;
    if fields.Keys == fields'.Keys {
      assert r == r' <==> forall k :: k in fields ==> r[k] == r'[k];
    }
  }

  // ---- Truncation ----

  function Itoa(n: nat): string {
    if n < 10 then [('0' as int + n) as char] else Itoa(n / 10) + Itoa(n % 10)
  }

  function Atoi(s: string): int {
    if s == "" then 0 else 10 * Atoi(s[..|s| - 1]) + (s[|s| - 1] as int - '0' as int)
  }

  lemma {:induction false} ItoaRoundTrip(n: nat)
    ensures Atoi(Itoa(n)) == n
  {
    if n < 10 {
      assert Itoa(n)[..0] == "";
    } else {
      ItoaRoundTrip(n / 10);
      assert Itoa(n)[..|Itoa(n)| - 1] == Itoa(n / 10);
    }
  }

  function Marker(truncated: nat): Json {
    Obj(map["..." := Str(Itoa(truncated) + " items truncated")])
  }

  /** Arrays of more than six elements keep their first five and their last, around a marker. */
  function Truncate(v: Json): Json {
    match v
    case Arr(items) =>
      var rewritten := seq(|items|, i requires 0 <= i < |items| => Truncate(items[i]));
      Arr(if |items| <= MAX_ARRAY_LOG_ITEMS then rewritten else Shorten(rewritten))
    case Obj(fields) => Obj(map k | k in fields :: Truncate(fields[k]))
    case _ => v
  }

  function Shorten(items: seq<Json>): (r: seq<Json>)
    requires |items| > MAX_ARRAY_LOG_ITEMS
  {
    items[..MAX_ARRAY_LOG_ITEMS - 1] + [Marker(|items| - MAX_ARRAY_LOG_ITEMS), items[|items| - 1]]
  }

  /** The number of elements that the marker says it stands for. */
  function MarkerCount(marker: Json): int
    requires marker.Obj? && "..." in marker.fields && marker.fields["..."].Str? && |marker.fields["..."].text| >= 16
  {
    var text := marker.fields["..."].text;
    Atoi(text[..|text| - 16])
  }

  lemma MarkerCountIsExact(truncated: nat)
    ensures |Itoa(truncated)| > 0 && MarkerCount(Marker(truncated)) == truncated
  {
    ItoaRoundTrip(truncated);
    var text := Itoa(truncated) + " items truncated";
    assert |" items truncated"| == 16;
    assert text[..|text| - 16] == Itoa(truncated);
  }

  /**
   A long array becomes seven elements: its first five rewritten, a marker that tells how many were left
   out, and its last rewritten; five, the marked number and one add up to the original length.
   */
  lemma TruncatedArray(items: seq<Json>)
    requires |items| > 6
    ensures var r := Truncate(Arr(items)).items;
            && |r| == 7
            && (forall i :: 0 <= i < 5 ==> r[i] == Truncate(items[i]))
            && r[6] == Truncate(items[|items| - 1])
            && r[5] == Marker(|items| - 6) && 5 + MarkerCount(r[5]) + 1 == |items|
            && exists digits :: r[5] == Obj(map["..." := Str(digits + " items truncated")]) && Atoi(digits) == |items| - 6
  {
    MarkerCountIsExact(|items| - 6);
    ItoaRoundTrip(|items| - 6);
    assert Truncate(Arr(items)).items[5] == Obj(map["..." := Str(Itoa(|items| - 6) + " items truncated")]);
  }

  predicate ArraysWithin(v: Json, n: nat) {
    match v
    case Arr(items) => |items| <= n && forall i :: 0 <= i < |items| ==> ArraysWithin(items[i], n)
    case Obj(fields) => forall k :: k in fields ==> ArraysWithin(fields[k], n)
    case _ => true
  }

  lemma {:induction false} TruncatedArraysAreShort(v: Json)
    ensures ArraysWithin(Truncate(v), 7)
  {
    match v {
      case Arr(items) => forall i | 0 <= i < |items| ensures ArraysWithin(Truncate(items[i]), 7) { TruncatedArraysAreShort(items[i]); }
      case Obj(fields) => forall k | k in fields ensures ArraysWithin(Truncate(fields[k]), 7) { TruncatedArraysAreShort(fields[k]); }
      case _ =>
    }
  }

  /** Truncation after redaction keeps the redaction: nothing new appears under any key. */
  lemma {:induction false} TruncateKeepsClean(v: Json)
    requires Clean(v)
    ensures Clean(Truncate(v))
  {
    EllipsisIsNotSensitive();
    match v {
      case Arr(items) => forall i | 0 <= i < |items| ensures Clean(Truncate(items[i])) { TruncateKeepsClean(items[i]); }
      case Obj(fields) =>
        forall k | k in fields && !Sensitive(k) ensures Clean(Truncate(fields[k])) { TruncateKeepsClean(fields[k]); }
      case _ =>
    }
  }

  /** No array is longer than six, except seven with the marker of one left-out element in its place. */
  predicate Settled(v: Json) {
    match v
    case Arr(items) =>
      && (|items| <= 6 || (|items| == 7 && items[5] == Marker(1)))
      && forall i :: 0 <= i < |items| ==> Settled(items[i])
    case Obj(fields) => forall k :: k in fields ==> Settled(fields[k])
    case _ => true
  }

  lemma {:induction false} TruncateFixesSettled(v: Json)
    ensures Truncate(v) == v <==> Settled(v)
  {
    match v {
      case Arr(items) =>
        forall i | 0 <= i < |items| ensures Truncate(items[i]) == items[i] <==> Settled(items[i]) { TruncateFixesSettled(items[i]); }
        if |items| == 7 {
          assert Truncate(v) == v <==> forall i :: 0 <= i < 7 ==> Truncate(v).items[i] == items[i];
          if items[5] == Marker(1) { assert Settled(Marker(1)); }
        } else if |items| < 7 {
          assert Truncate(v) == v <==> forall i :: 0 <= i < |items| ==> Truncate(v).items[i] == items[i];
        }
      case Obj(fields) =>
        forall k | k in fields ensures Truncate(fields[k]) == fields[k] <==> Settled(fields[k]) { TruncateFixesSettled(fields[k]); }
        assert Truncate(v) == v <==> forall k :: k in fields ==> Truncate(v).fields[k] == fields[k];
      case _ =>
    }
  }

  /** Every array that survives truncation has at most seven elements. */
  predicate SurvivorsWithinSeven(v: Json) {
    match v
    case Arr(items) => |items| <= 7 && forall i :: 0 <= i < |items| && (|items| < 7 || i != 5) ==> SurvivorsWithinSeven(items[i])
    case Obj(fields) => forall k :: k in fields ==> SurvivorsWithinSeven(fields[k])
    case _ => true
  }

  /**
   A second truncation takes the seven elements left by the first for a long array and replaces the marker
   by one that counts a single element; truncation is idempotent exactly where that marker was right.
   */
  lemma {:induction false} TruncateIdempotentIff(v: Json)
    ensures Truncate(Truncate(v)) == Truncate(v) <==> SurvivorsWithinSeven(v)
  {
    TruncateFixesSettled(Truncate(v));
    SettledAfterTruncateIff(v);
  }

  lemma {:induction false} SettledAfterTruncateIff(v: Json)
    ensures Settled(Truncate(v)) <==> SurvivorsWithinSeven(v)
  {
    match v {
      case Arr(items) =>
        forall i | 0 <= i < |items| ensures Settled(Truncate(items[i])) <==> SurvivorsWithinSeven(items[i]) {
          SettledAfterTruncateIff(items[i]);
        }
        ArraySettledIff(items);
      case Obj(fields) =>
        forall k | k in fields ensures Settled(Truncate(fields[k])) <==> SurvivorsWithinSeven(fields[k]) {
          SettledAfterTruncateIff(fields[k]);
        }
        var r := Truncate(v).fields;
        assert r.Keys == fields.Keys && forall k :: k in fields ==> r[k] == Truncate(fields[k]);
        assert Settled(Truncate(v)) <==> forall k :: k in fields ==> Settled(r[k]);
      case _ =>
    }
  }

  lemma ArraySettledIff(items: seq<Json>)
    requires forall i :: 0 <= i < |items| ==> (Settled(Truncate(items[i])) <==> SurvivorsWithinSeven(items[i]))
    ensures Settled(Truncate(Arr(items))) <==> SurvivorsWithinSeven(Arr(items))
  {
    if |items| > 6 {
      LongArraySettledIff(items);
    } else {
      var r := Truncate(Arr(items)).items;
      assert |r| == |items| && forall i :: 0 <= i < |items| ==> r[i] == Truncate(items[i]);
      assert Settled(Arr(r)) <==> forall i :: 0 <= i < |items| ==> Settled(r[i]);
    }
  }

  lemma LongArraySettledIff(items: seq<Json>)
    requires |items| > 6
    requires forall i :: 0 <= i < |items| ==> (Settled(Truncate(items[i])) <==> SurvivorsWithinSeven(items[i]))
    ensures Settled(Truncate(Arr(items))) <==> SurvivorsWithinSeven(Arr(items))
  {
    var r := Truncate(Arr(items)).items;
    TruncatedArray(items);
    MarkerCountIsExact(1);
    assert Settled(r[5]);
    if |items| > 7 {
      assert r[5] != Marker(1);
    } else {
      assert r[5] == Marker(1);
      forall i | 0 <= i < 7 && i != 5 ensures Settled(r[i]) <==> SurvivorsWithinSeven(items[i]) {
        assert r[i] == Truncate(items[i]);
      }
      if SurvivorsWithinSeven(Arr(items)) {
        forall i | 0 <= i < 7 ensures Settled(r[i]) {
          assert i != 5 ==> SurvivorsWithinSeven(items[i]);
        }
      }
      if Settled(Arr(r)) {
        forall i | 0 <= i < 7 && i != 5 ensures SurvivorsWithinSeven(items[i]) {
          assert Settled(r[i]);
        }
      }
    }
  }

  // ---- Whole bodies ----

  const KEEP := MAX_BODY_LOG_BYTES / 2

  function HeadTail(body: string): string
    requires |body| > MAX_BODY_LOG_BYTES
  {
    body[..KEEP] + Between(|body| - 2 * KEEP) + body[|body| - KEEP..]
  }

  function Between(left: nat): string {
    " ... (" + Itoa(left) + " bytes truncated) ... "
  }

  /** Two long texts are shortened alike exactly when they have the same length and the same two ends. */
  lemma HeadTailTellsEndsAndLength(a: string, b: string)
    requires |a| > 512 && |b| > 512
    ensures HeadTail(a) == HeadTail(b) <==> |a| == |b| && a[..256] == b[..256] && a[|a| - 256..] == b[|b| - 256..]
  {
    if HeadTail(a) == HeadTail(b) {
      HeadTailParts(a);
      HeadTailParts(b);
      PartsDetermine(HeadTail(a), a, b);
    }
  }

  /** The parts of a shortened text tell the ends and the length of what it was made from. */
  lemma PartsDetermine(r: string, a: string, b: string)
    requires |a| > MAX_BODY_LOG_BYTES && |b| > MAX_BODY_LOG_BYTES && |r| >= 2 * KEEP + 28
    requires r[..KEEP] == a[..KEEP] && r[|r| - KEEP..] == a[|a| - KEEP..]
    requires r[..KEEP] == b[..KEEP] && r[|r| - KEEP..] == b[|b| - KEEP..]
    requires Atoi(r[KEEP + 6..|r| - KEEP - 22]) == |a| - 2 * KEEP
    requires Atoi(r[KEEP + 6..|r| - KEEP - 22]) == |b| - 2 * KEEP
    ensures |a| == |b| && a[..KEEP] == b[..KEEP] && a[|a| - KEEP..] == b[|b| - KEEP..]
  {
  }

  /** Where the parts of a shortened text are, counted from its two ends. */
  lemma HeadTailParts(body: string)
    requires |body| > MAX_BODY_LOG_BYTES
    ensures var r := HeadTail(body);
            && |r| >= 2 * KEEP + 28 && r[..KEEP] == body[..KEEP] && r[|r| - KEEP..] == body[|body| - KEEP..]
            && Atoi(r[KEEP + 6..|r| - KEEP - 22]) == |body| - 2 * KEEP
  {
    var n := |body| - 2 * KEEP;
    ItoaRoundTrip(n);
    assert Between(n)[6..|Between(n)| - 22] == Itoa(n);
    assert HeadTail(body)[KEEP + 6..|HeadTail(body)| - KEEP - 22] == Between(n)[6..|Between(n)| - 22];
  }

  type Parser = string -> Option<Json>
  type Printer = Json -> string

  predicate IsContainer(v: Option<Json>) { v.Some? && (v.value.Arr? || v.value.Obj?) }

  /** A body that is not a JSON object or array is replaced by its length. */
  function RedactBody(body: string, parse: Parser, show: Printer): string {
    if body == "" then ""
    else if IsContainer(parse(body)) then show(Redact(parse(body).value))
    else "<non-json body (" + Itoa(|body|) + " bytes)>"
  }

  function TruncateBody(body: string, parse: Parser, show: Printer): string {
    if |body| <= MAX_BODY_LOG_BYTES then body
    else match parse(body)
         case None => HeadTail(body)
         case Some(v) => show(Truncate(v))
  }

  function LogText(body: string, parse: Parser, show: Printer): string {
    TruncateBody(RedactBody(body, parse, show), parse, show)
  }

  /** The body is a JSON object or array, and no other value of JSON. */
  predicate HasFields(v: Option<Json>) {
    match v
    case None => false
    case Some(tree) => !(tree.Null? || tree.Bool? || tree.Num? || tree.Str?)
  }

  /**
   Two bodies that differ only under sensitive keys leave the same line in the log, and so do two bodies of
   one length that are not JSON objects or arrays.
   */
  lemma LogTextHidesTheSensitive(a: string, b: string, parse: Parser, show: Printer)
    requires a != "" && b != ""
    requires if HasFields(parse(a)) then HasFields(parse(b)) && SameOutside(parse(a).value, parse(b).value)
             else !HasFields(parse(b)) && |a| == |b|
    ensures LogText(a, parse, show) == LogText(b, parse, show)
  {
    if HasFields(parse(a)) {
      RedactHidesExactlyTheSensitive(parse(a).value, parse(b).value);
    }
  }

  /** A number that is neither infinite nor not-a-number: its exponent bits are not all set. */
  predicate Finite(float64: bv64) { float64 & 0x7FF0_0000_0000_0000 != 0x7FF0_0000_0000_0000 }

  predicate Ascii(s: string) { forall i :: 0 <= i < |s| ==> s[i] as int < 0x80 }

  lemma {:induction false} ItoaIsAscii(n: nat)
    ensures Ascii(Itoa(n))
  {
    if n >= 10 {
      ItoaIsAscii(n / 10);
      ItoaIsAscii(n % 10);
    }
  }

  /** Which texts printing keeps: those of well-formed UTF-8, and so at least those of ASCII. */
  type Wellformed = string -> bool

  ghost predicate CoversAscii(valid: Wellformed) { forall s :: Ascii(s) ==> valid(s) }

  /** A tree that printing keeps: its numbers are finite and its texts are well-formed. */
  predicate Encodable(v: Json, valid: Wellformed) {
    match v
    case Num(float64) => Finite(float64)
    case Str(text) => valid(text)
    case Arr(items) => forall i :: 0 <= i < |items| ==> Encodable(items[i], valid)
    case Obj(fields) => forall k :: k in fields ==> valid(k) && Encodable(fields[k], valid)
    case _ => true
  }

  lemma MarksAreEncodable(truncated: nat, valid: Wellformed)
    requires CoversAscii(valid)
    ensures Encodable(REDACTED, valid) && Encodable(Marker(truncated), valid)
  {
    ItoaIsAscii(truncated);
    assert Ascii("[REDACTED]") && Ascii("...") && Ascii(Itoa(truncated) + " items truncated");
  }

  /** How deep a text may nest before the parser refuses it. */
  const MAX_NESTING := 10000

  /** Arrays and objects nest at most `n` deep. */
  predicate Within(v: Json, n: nat) {
    match v
    case Arr(items) => n > 0 && forall i :: 0 <= i < |items| ==> Within(items[i], n - 1)
    case Obj(fields) => n > 0 && forall k :: k in fields ==> Within(fields[k], n - 1)
    case _ => true
  }

  /** A value that parsing can yield. */
  predicate Readable(v: Json, valid: Wellformed) { Encodable(v, valid) && Within(v, MAX_NESTING) }

  lemma {:induction false} RedactKeepsEncodable(v: Json, valid: Wellformed)
    requires Encodable(v, valid) && CoversAscii(valid)
    ensures Encodable(Redact(v), valid)
  {
    match v {
      case Arr(items) => forall i | 0 <= i < |items| ensures Encodable(Redact(items[i]), valid) { RedactKeepsEncodable(items[i], valid); }
      case Obj(fields) =>
        MarksAreEncodable(0, valid);
        forall k | k in fields ensures Encodable(Redact(fields[k]), valid) { RedactKeepsEncodable(fields[k], valid); }
      case _ =>
    }
  }

  lemma {:induction false} RedactKeepsWithin(v: Json, n: nat)
    requires Within(v, n)
    ensures Within(Redact(v), n)
  {
    match v {
      case Arr(items) => forall i | 0 <= i < |items| ensures Within(Redact(items[i]), n - 1) { RedactKeepsWithin(items[i], n - 1); }
      case Obj(fields) => forall k | k in fields ensures Within(Redact(fields[k]), n - 1) { RedactKeepsWithin(fields[k], n - 1); }
      case _ =>
    }
  }

  lemma ShortenKeepsEncodable(items: seq<Json>, valid: Wellformed)
    requires CoversAscii(valid) && forall i :: 0 <= i < |items| ==> Encodable(items[i], valid)
    ensures |items| > MAX_ARRAY_LOG_ITEMS ==> Encodable(Arr(Shorten(items)), valid)
  {
    if |items| > MAX_ARRAY_LOG_ITEMS {
      MarksAreEncodable(|items| - MAX_ARRAY_LOG_ITEMS, valid);
    }
  }

  lemma {:induction false} TruncateKeepsEncodable(v: Json, valid: Wellformed)
    requires Encodable(v, valid) && CoversAscii(valid)
    ensures Encodable(Truncate(v), valid)
  {
    match v {
      case Arr(items) =>
        forall i | 0 <= i < |items| ensures Encodable(Truncate(items[i]), valid) { TruncateKeepsEncodable(items[i], valid); }
        ShortenKeepsEncodable(seq(|items|, i requires 0 <= i < |items| => Truncate(items[i])), valid);
      case Obj(fields) => forall k | k in fields ensures Encodable(Truncate(fields[k]), valid) { TruncateKeepsEncodable(fields[k], valid); }
      case _ =>
    }
  }

  /** A marker is an object where there was none, so truncation can deepen a tree by one. */
  lemma {:induction false} TruncateDeepensByOne(v: Json, n: nat)
    requires Within(v, n)
    ensures Within(Truncate(v), n + 1)
  {
    match v {
      case Arr(items) =>
        forall i | 0 <= i < |items| ensures Within(Truncate(items[i]), n) { TruncateDeepensByOne(items[i], n - 1); }
        assert Within(Marker(|items|), n);
      case Obj(fields) => forall k | k in fields ensures Within(Truncate(fields[k]), n) { TruncateDeepensByOne(fields[k], n - 1); }
      case _ =>
    }
  }

  /** An array of seven nulls inside `k` arrays of one element. */
  function Nested(k: nat): Json {
    if k == 0 then Arr([Null, Null, Null, Null, Null, Null, Null]) else Arr([Nested(k - 1)])
  }

  lemma {:induction false} NestedDeepens(k: nat, valid: Wellformed)
    ensures Encodable(Nested(k), valid) && Within(Nested(k), k + 1) && !Within(Truncate(Nested(k)), k + 1)
  {
    if k == 0 {
      var items := Truncate(Nested(0)).items;
      assert items[5] == Marker(1);
    } else {
      NestedDeepens(k - 1, valid);
      assert Truncate(Nested(k)).items[0] == Truncate(Nested(k - 1));
    }
  }

  /** So a tree that could be read may be logged as one that cannot. */
  lemma DeepestTruncationIsUnreadable(valid: Wellformed)
    ensures Readable(Nested(MAX_NESTING - 1), valid) && !Readable(Truncate(Nested(MAX_NESTING - 1)), valid)
  {
    NestedDeepens(MAX_NESTING - 1, valid);
  }

  /**
   What the log shows of a JSON object or array is the print of its redaction, if that takes at most 512 bytes,
   and of the truncation of its redaction otherwise, and holds no value under a sensitive key; it reads back as
   that tree unless it nests too deep, which a body that nests one level less never leads to. Parsing yields
   readable values only, and reads back what was printed of one.
   */
  lemma LogTextIsClean(body: string, parse: Parser, show: Printer, valid: Wellformed)
    requires body != "" && HasFields(parse(body)) && CoversAscii(valid)
    requires forall text :: parse(text).Some? ==> Readable(parse(text).value, valid)
    requires forall v :: Readable(v, valid) ==> parse(show(v)) == Some(v)
    ensures var redacted := Redact(parse(body).value);
            var v := if |show(redacted)| <= 512 then redacted else Truncate(redacted);
            && LogText(body, parse, show) == show(v) && Clean(v)
            && (Within(v, MAX_NESTING) ==> parse(LogText(body, parse, show)) == Some(v))
            && (Within(parse(body).value, MAX_NESTING - 1) ==> Within(v, MAX_NESTING))
  {
    var read := parse(body).value;
    var redacted := Redact(read);
    RedactKeepsEncodable(read, valid);
    RedactKeepsWithin(read, MAX_NESTING);
    RedactIsClean(read);
    if |show(redacted)| <= 512 {
      assert LogText(body, parse, show) == show(redacted);
    } else {
      TruncateKeepsEncodable(redacted, valid);
      TruncateKeepsClean(redacted);
      if Within(read, MAX_NESTING - 1) {
        RedactKeepsWithin(read, MAX_NESTING - 1);
        TruncateDeepensByOne(redacted, MAX_NESTING - 1);
      }
      assert LogText(body, parse, show) == show(Truncate(redacted));
    }
  }

  lemma {:induction false} ItoaLength(n: nat, digits: nat)
    requires digits >= 1 && n < Power(digits)
    ensures 1 <= |Itoa(n)| <= digits
    decreases digits
  {
    if n >= 10 {
      ItoaLength(n / 10, digits - 1);
    }
  }

  /** Ten to the power of `digits`. */
  function Power(digits: nat): nat { if digits == 0 then 1 else 10 * Power(digits - 1) }

  lemma LengthsHaveNineteenDigits(n: nat)
    requires n < 0x8000_0000_0000_0000
    ensures |Itoa(n)| <= 19
  {
    assert Power(4) == 10_000;
    assert Power(8) == 100_000_000;
    assert Power(12) == 1_000_000_000_000;
    assert Power(16) == 10_000_000_000_000_000;
    assert Power(19) == 10_000_000_000_000_000_000;
    ItoaLength(n, 19);
  }

  /** Of a body that is no JSON object or array the log shows nothing but its length, whose digits read back as that. */
  lemma LogTextOfOthers(body: string, parse: Parser, show: Printer)
    requires body != "" && !HasFields(parse(body)) && |body| < 0x8000_0000_0000_0000
    ensures exists digits :: LogText(body, parse, show) == "<non-json body (" + digits + " bytes)>" && Atoi(digits) == |body|
  {
    LengthsHaveNineteenDigits(|body|);
    ItoaRoundTrip(|body|);
    assert |RedactBody(body, parse, show)| <= 512;
    assert LogText(body, parse, show) == "<non-json body (" + Itoa(|body|) + " bytes)>";
  }

  /** A text of at most 512 bytes is logged as it is; of a longer one that is no JSON the first and last 256 bytes stay. */
  lemma ShortenedText(body: string, parse: Parser, show: Printer)
    ensures |body| <= 512 ==> TruncateBody(body, parse, show) == body
    ensures |body| > 512 && parse(body).None? ==>
              exists digits :: TruncateBody(body, parse, show)
                                 == body[..256] + " ... (" + digits + " bytes truncated) ... " + body[|body| - 256..]
                               && Atoi(digits) == |body| - 512
  {
    if |body| > 512 && parse(body).None? {
      ShortenedParts(body);
    }
  }

  lemma ShortenedParts(body: string)
    requires |body| > 512
    ensures exists digits :: HeadTail(body) == body[..256] + " ... (" + digits + " bytes truncated) ... " + body[|body| - 256..]
                             && Atoi(digits) == |body| - 512
  {
    var digits := Itoa(|body| - 512);
    ItoaRoundTrip(|body| - 512);
    Regroup(body[..256], " ... (", digits, " bytes truncated) ... ", body[|body| - 256..]);
    assert HeadTail(body) == body[..256] + Between(|body| - 512) + body[|body| - 256..];
  }

  lemma Regroup(a: string, b: string, c: string, d: string, e: string)
    ensures a + (b + c + d) + e == a + b + c + d + e
  {
  }

  /** An empty body is logged as it is. */
  lemma EmptyBody(parse: Parser, show: Printer)
    ensures LogText("", parse, show) == ""
  {
  }
}
