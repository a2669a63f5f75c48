/** The array and string helpers of the client's Utils class. JavaScript
    numbers are modelled as integers, strings as sequences of characters,
    and the random index that shuffleArray draws as any index in range. */
module Utils {

  function Min(a: int, b: int): int {
    if a < b then a else b
  }

  function Max(a: int, b: int): int {
    if a < b then b else a
  }

  // -------------------------------------------------------------------
  // Arrays

  /** shuffleArray: from the last index down to 1, swap the element with
      one at a random index at or below it; the array is changed in place
      and returned. */
  method ShuffleArray<T>(a: array<T>) returns (r: array<T>)
    modifies a
    ensures r == a && multiset(a[..]) == multiset(old(a[..]))
  {
    var i := a.Length - 1;
    while i > 0
      invariant -1 <= i < a.Length
      invariant multiset(a[..]) == multiset(old(a[..]))
    {
      var j :| 0 <= j <= i;
      a[i], a[j] := a[j], a[i];
      i := i - 1;
    }
    r := a;
  }

  /** clamp: Math.min(Math.max(value, lo), hi). */
  function Clamp(value: int, lo: int, hi: int): (r: int)
    ensures r <= hi
    ensures lo <= hi ==> lo <= r
    ensures lo <= value <= hi ==> r == value
    ensures value < lo && lo <= hi ==> r == lo
    ensures hi < value ==> r == hi
  {
    Min(Max(value, lo), hi)
  }

  /** The chunks joined back together. */
  function Concat<T>(cs: seq<seq<T>>): seq<T> {
    if cs == [] then [] else Concat(cs[..|cs| - 1]) + cs[|cs| - 1]
  }

  /** chunk: slices of the given size taken from the front, the last one
      possibly shorter. A size that is not positive never ends the loop of
      the source, so it is excluded. */
  method Chunk<T>(a: seq<T>, size: int) returns (chunks: seq<seq<T>>)
    requires size > 0
    ensures Concat(chunks) == a
    ensures forall k :: 0 <= k < |chunks| ==> 0 < |chunks[k]| <= size
    ensures forall k :: 0 <= k < |chunks| - 1 ==> |chunks[k]| == size
  {
    chunks := [];
    var i := 0;
    while i < |a|
      invariant 0 <= i
      invariant Concat(chunks) == a[..Min(i, |a|)]
      invariant forall k :: 0 <= k < |chunks| ==> 0 < |chunks[k]| <= size
      invariant i <= |a| ==> forall k :: 0 <= k < |chunks| ==> |chunks[k]| == size
      invariant forall k :: 0 <= k < |chunks| - 1 ==> |chunks[k]| == size
      decreases |a| - i
    {
      var piece := a[i..Min(i + size, |a|)];
      assert a[..Min(i + size, |a|)] == a[..i] + piece;
      assert (chunks + [piece])[..|chunks|] == chunks;
      chunks := chunks + [piece];
      i := i + size;
    }
    assert a[..Min(i, |a|)] == a;
  }

  /** The position of the first occurrence of x in a. */
  function FirstIndex<T(==, !new)>(a: seq<T>, x: T): (k: nat)
    requires x in a
    ensures k < |a| && a[k] == x && x !in a[..k]
  {
    if a[0] == x then 0 else 1 + FirstIndex(a[1..], x)
  }

  /** unique: [...new Set(array)], each value once, in the order in which
      it first occurs. */
  function Unique<T(==, !new)>(a: seq<T>): (r: seq<T>)
    ensures forall x :: x in r <==> x in a
    ensures forall i, j :: 0 <= i < j < |r| ==> r[i] != r[j]
  {
    if a == [] then []
    else
      var u := Unique(a[..|a| - 1]);
      if a[|a| - 1] in u then u else u + [a[|a| - 1]]
  }

  /** The values of unique come in the order of their first occurrences. */
  lemma {:induction false} UniqueKeepsOrder<T(!new)>(a: seq<T>)
    ensures forall i, j :: 0 <= i < j < |Unique(a)| ==> FirstIndex(a, Unique(a)[i]) < FirstIndex(a, Unique(a)[j])
    decreases |a|
  {
    if a != [] {
      var p := a[..|a| - 1];
      UniqueKeepsOrder(p);
      var u, r := Unique(p), Unique(a);
      assert r == if a[|a| - 1] in u then u else u + [a[|a| - 1]];
      forall i, j | 0 <= i < j < |r|
        ensures FirstIndex(a, r[i]) < FirstIndex(a, r[j])
      {
        assert p <= a;
        assert r[i] == u[i] && u[i] in p;
        FirstIndexPrefix(p, a, r[i]);
        if j < |u| {
          assert r[j] == u[j] && u[j] in p;
          FirstIndexPrefix(p, a, r[j]);
        } else {
          assert r[j] == a[|a| - 1] && r[j] !in p;
          assert FirstIndex(p, u[i]) < |p| <= FirstIndex(a, r[j]);
        }
      }
    }
  }

  /** The first occurrence of a value of a prefix is its first occurrence
      in the whole sequence. */
  lemma FirstIndexPrefix<T(!new)>(p: seq<T>, a: seq<T>, x: T)
    requires p <= a && x in p
    ensures FirstIndex(a, x) == FirstIndex(p, x)
  {
    var k := FirstIndex(p, x);
    assert a[k] == x && x !in a[..k] by {
      assert a[..k] == p[..k];
    }
  }

  /** An element of a nested array: a value, or an array of elements. */
  datatype Nested<T> = Leaf(value: T) | List(items: seq<Nested<T>>)

  /** flatten: the reduce from the left that concatenates each value, and
      each array flattened in turn. */
  function Flatten<T>(xs: seq<Nested<T>>): (r: seq<T>)
    decreases xs
  {
    if xs == [] then []
    else Flatten(xs[..|xs| - 1]) + Spread(xs[|xs| - 1])
  }

  /** What flat.concat(item) adds for one item. */
  function Spread<T>(x: Nested<T>): seq<T>
    decreases x
  {
    match x
    case Leaf(v) => [v]
    case List(ys) => Flatten(ys)
  }

  /** Flattening two arrays one after the other is flattening their
      concatenation. */
  lemma {:induction false} FlattenAppend<T>(xs: seq<Nested<T>>, ys: seq<Nested<T>>)
    ensures Flatten(xs + ys) == Flatten(xs) + Flatten(ys)
    decreases |ys|
  {
    if ys != [] {
      var init := ys[..|ys| - 1];
      FlattenAppend(xs, init);
      assert (xs + ys)[..|xs + ys| - 1] == xs + init;
      assert Flatten(xs + ys) == Flatten(xs + init) + Spread(ys[|ys| - 1]);
      assert Flatten(ys) == Flatten(init) + Spread(ys[|ys| - 1]);
      assert Flatten(xs) + Flatten(init) + Spread(ys[|ys| - 1]) == Flatten(xs) + (Flatten(init) + Spread(ys[|ys| - 1]));
    } else {
      assert xs + ys == xs;
    }
  }

  /** The leaves read from left to right: the first item spread, then the
      rest flattened. */
  lemma {:induction false} FlattenFromLeft<T>(xs: seq<Nested<T>>)
    requires xs != []
    ensures Flatten(xs) == Spread(xs[0]) + Flatten(xs[1..])
  {
    FlattenAppend([xs[0]], xs[1..]);
    assert [xs[0]] + xs[1..] == xs;
    assert Flatten([xs[0]]) == Spread(xs[0]) by {
      assert [xs[0]][..0] == [];
    }
  }

  /** An array of plain values, as a nested array. */
  function Leaves<T>(vs: seq<T>): (r: seq<Nested<T>>)
    ensures |r| == |vs| && forall i :: 0 <= i < |vs| ==> r[i] == Leaf(vs[i])
  {
    if vs == [] then [] else Leaves(vs[..|vs| - 1]) + [Leaf(vs[|vs| - 1])]
  }

  /** The result has no nested arrays left: flattening it again gives it
      back. */
  lemma {:induction false} FlattenFlat<T>(vs: seq<T>)
    ensures Flatten(Leaves(vs)) == vs
    decreases |vs|
  {
    if vs != [] {
      FlattenFlat(vs[..|vs| - 1]);
      assert Leaves(vs)[..|vs| - 1] == Leaves(vs[..|vs| - 1]);
      assert vs[..|vs| - 1] + [vs[|vs| - 1]] == vs;
    }
  }

  // -------------------------------------------------------------------
  // Durations

  /** A digit character. */
  function Digit(d: nat): char
    requires d < 10
  {
    (48 + d) as char
  }

  predicate IsDigit(c: char) {
    '0' <= c <= '9'
  }

  /** The decimal writing of a natural number, as a template string shows
      it. */
  function ShowNat(n: nat): (s: string)
    ensures |s| >= 1 && forall i :: 0 <= i < |s| ==> IsDigit(s[i])
  {
    if n < 10 then [Digit(n)] else ShowNat(n / 10) + [Digit(n % 10)]
  }

  /** The writing of any integer: a minus sign before a negative one. */
  function ShowInt(i: int): (s: string)
    ensures |s| >= 1
    ensures i >= 0 ==> s == ShowNat(i)
    ensures i < 0 ==> s == "-" + ShowNat(-i)
  {
    if i < 0 then "-" + ShowNat(-i) else ShowNat(i)
  }

  /** formatDuration: whole seconds, minutes and hours (each rounded
      down), written as "h m s" when there is an hour, "m s" when there is
      a minute, and otherwise as seconds alone. JavaScript's % agrees
      with the Euclidean one wherever it is used, since the minute and
      second counts are then positive. */
  function FormatDuration(milliseconds: int): (r: string)
    ensures |r| >= 2 && r[|r| - 1] == 's'
  {
    var seconds := milliseconds / 1000;
    var minutes := seconds / 60;
    var hours := minutes / 60;
    if hours > 0 then ShowInt(hours) + ("h " + (ShowInt(minutes % 60) + ("m " + (ShowInt(seconds % 60) + "s"))))
    else if minutes > 0 then ShowInt(minutes) + ("m " + (ShowInt(seconds % 60) + "s"))
    else ShowInt(seconds) + "s"
  }

  /** A reader of durations in that format: digits accumulate into a
      number, which each unit letter then adds to the total as hours,
      minutes or seconds; spaces are skipped. */
  function ReadDuration(s: string, acc: int, total: int): int
    decreases |s|
  {
    if s == [] then total + acc
    else if IsDigit(s[0]) then ReadDuration(s[1..], acc * 10 + (s[0] as int - 48), total)
    else if s[0] == 'h' then ReadDuration(s[1..], 0, total + acc * 3600)
    else if s[0] == 'm' then ReadDuration(s[1..], 0, total + acc * 60)
    else if s[0] == 's' then ReadDuration(s[1..], 0, total + acc)
    else ReadDuration(s[1..], acc, total)
  }

  /** Reading a written number leaves it in the accumulator. */
  lemma {:induction false} ReadShowNat(n: nat, rest: string, total: int)
    ensures ReadDuration(ShowNat(n) + rest, 0, total) == ReadDuration(rest, n, total)
    decreases n
  {
    if n < 10 {
      assert ([Digit(n)] + rest)[1..] == rest;
    } else {
      var d := [Digit(n % 10)];
      ReadShowNat(n / 10, d + rest, total);
      assert ShowNat(n) + rest == ShowNat(n / 10) + (d + rest);
      assert (d + rest)[1..] == rest;
    }
  }

  /** A written number of hours and the space after them add the hours
      to the total. */
  lemma ReadHourUnit(n: nat, rest: string, total: int)
    ensures ReadDuration(ShowNat(n) + ("h " + rest), 0, total) == ReadDuration(rest, 0, total + n * 3600)
  {
    ReadShowNat(n, "h " + rest, total);
    assert ("h " + rest)[1..] == " " + rest && (" " + rest)[1..] == rest;
  }

  /** A written number of minutes and the space after them add the
      minutes to the total. */
  lemma ReadMinuteUnit(n: nat, rest: string, total: int)
    ensures ReadDuration(ShowNat(n) + ("m " + rest), 0, total) == ReadDuration(rest, 0, total + n * 60)
  {
    ReadShowNat(n, "m " + rest, total);
    assert ("m " + rest)[1..] == " " + rest && (" " + rest)[1..] == rest;
  }

  /** "s" reads back as its seconds. */
  lemma ReadSeconds(s: nat, total: int)
    ensures ReadDuration(ShowNat(s) + "s", 0, total) == total + s
  {
    ReadShowNat(s, "s", total);
    assert "s"[1..] == [];
  }

  /** "m s" reads back as its seconds. */
  lemma ReadMinutes(m: nat, s: nat, total: int)
    ensures ReadDuration(ShowNat(m) + ("m " + (ShowNat(s) + "s")), 0, total) == total + m * 60 + s
  {
    ReadMinuteUnit(m, ShowNat(s) + "s", total);
    ReadSeconds(s, total + m * 60);
  }

  /** "h m s" reads back as its seconds. */
  lemma ReadHours(h: nat, m: nat, s: nat)
    ensures ReadDuration(ShowNat(h) + ("h " + (ShowNat(m) + ("m " + (ShowNat(s) + "s")))), 0, 0)
         == h * 3600 + m * 60 + s
  {
    ReadHourUnit(h, ShowNat(m) + ("m " + (ShowNat(s) + "s")), 0);
    ReadMinutes(m, s, h * 3600);
  }

  /** The text of formatDuration reads back as the whole number of
      seconds it was made from. */
  lemma FormatDurationReadsBack(milliseconds: nat)
    ensures ReadDuration(FormatDuration(milliseconds), 0, 0) == milliseconds / 1000
  {
    var seconds := milliseconds / 1000;
    var minutes := seconds / 60;
    var hours := minutes / 60;
    var sec, min := seconds % 60, minutes % 60;
    assert seconds == minutes * 60 + sec && minutes == hours * 60 + min;
    if hours > 0 {
      ReadHours(hours, min, sec);
      assert minutes * 60 == hours * 3600 + min * 60;
    } else if minutes > 0 {
      ReadMinutes(minutes, sec, 0);
    } else {
      ReadSeconds(seconds, 0);
    }
  }

  /** A written number holds no unit letter. */
  lemma NoUnitInNumber(n: nat)
    ensures 'h' !in ShowNat(n) && 'm' !in ShowNat(n) && 's' !in ShowNat(n)
  {
    var d := ShowNat(n);
    forall i | 0 <= i < |d| ensures d[i] != 'h' && d[i] != 'm' && d[i] != 's' {
      assert IsDigit(d[i]);
    }
  }

  /** The layout of formatDuration: an 'h' exactly when there is a whole
      hour, an 'm' exactly when there is a whole minute, and in the
      longer forms the minutes and the seconds written are below 60.
      With FormatDurationReadsBack this fixes every number in the text. */
  lemma FormatDurationLayout(milliseconds: nat)
    ensures var r, secs := FormatDuration(milliseconds), milliseconds / 1000;
      && ('h' in r <==> secs >= 3600) && ('m' in r <==> secs >= 60)
      && (secs >= 3600 ==> exists h: nat, m: nat, s: nat ::
            m < 60 && s < 60 && r == ShowNat(h) + ("h " + (ShowNat(m) + ("m " + (ShowNat(s) + "s")))))
      && (60 <= secs < 3600 ==> exists m: nat, s: nat ::
            s < 60 && r == ShowNat(m) + ("m " + (ShowNat(s) + "s")))
      && (secs < 60 ==> r == ShowNat(secs) + "s")
  {
    var r := FormatDuration(milliseconds);
    var seconds := milliseconds / 1000;
    var minutes := seconds / 60;
    var hours := minutes / 60;
    var sec, min := seconds % 60, minutes % 60;
    assert seconds == minutes * 60 + sec && minutes == hours * 60 + min;
    NoUnitInNumber(hours);
    NoUnitInNumber(minutes);
    NoUnitInNumber(min);
    NoUnitInNumber(sec);
    NoUnitInNumber(seconds);
    if hours > 0 {
      assert seconds >= 3600;
      assert r == ShowNat(hours) + ("h " + (ShowNat(min) + ("m " + (ShowNat(sec) + "s"))));
      assert 'h' in r by { assert r[|ShowNat(hours)|] == 'h'; }
      assert 'm' in r by {
        assert r[|ShowNat(hours)| + 2 + |ShowNat(min)|] == 'm';
      }
    } else if minutes > 0 {
      assert 60 <= seconds < 3600;
      assert r == ShowNat(minutes) + ("m " + (ShowNat(sec) + "s"));
      assert 'm' in r by { assert r[|ShowNat(minutes)|] == 'm'; }
    } else {
      assert seconds < 60;
    }
  }

  // -------------------------------------------------------------------
  // Values and strings

  /** The JavaScript values isEmpty tells apart: an object is seen through
      its own enumerable keys. */
  datatype JsValue = Null | Undefined | Bool(b: bool) | Number(n: int) | Str(s: string)
                   | Arr(items: seq<JsValue>) | Obj(keys: seq<string>)

  /** The characters String.prototype.trim removes that this model knows:
      the ASCII white space, the no-break space and the byte order mark. */
  predicate IsSpace(c: char) {
    c == ' ' || c == '\t' || c == '\n' || c == '\r' || c == '\U{000B}' || c == '\U{000C}'
    || c == '\U{00A0}' || c == '\U{FEFF}'
  }

  /** trim: the string without its leading and trailing white space. */
  function Trim(s: string): (r: string)
    ensures |r| <= |s|
    ensures r == [] <==> forall i :: 0 <= i < |s| ==> IsSpace(s[i])
    ensures r != [] ==> !IsSpace(r[0]) && !IsSpace(r[|r| - 1])
    decreases |s|
  {
    if s == [] then []
    else if IsSpace(s[0]) then Trim(s[1..])
    else if IsSpace(s[|s| - 1]) then Trim(s[..|s| - 1])
    else s
  }

  /** isEmpty: null and undefined, a string of white space, an empty array
      and an object without keys are empty; nothing else is. */
  function IsEmpty(value: JsValue): (r: bool)
    ensures value.Str? ==> (r <==> forall i :: 0 <= i < |value.s| ==> IsSpace(value.s[i]))
    ensures value.Arr? ==> (r <==> value.items == [])
    ensures value.Obj? ==> (r <==> value.keys == [])
    ensures value.Null? || value.Undefined? ==> r
    ensures value.Bool? || value.Number? ==> !r
  {
    match value
    case Null => true
    case Undefined => true
    case Str(s) => |Trim(s)| == 0
    case Arr(items) => |items| == 0
    case Obj(keys) => |keys| == 0
    case _ => false
  }

  predicate IsUpper(c: char) {
    'A' <= c <= 'Z'
  }

  predicate IsLower(c: char) {
    'a' <= c <= 'z'
  }

  /** toUpperCase and toLowerCase on the ASCII letters. */
  function ToUpper(c: char): (u: char)
    ensures IsLower(c) ==> IsUpper(u) && ToLower(u) == c
    ensures !IsLower(c) ==> u == c
  {
    if IsLower(c) then (c as int - 32) as char else c
  }

  function ToLower(c: char): (l: char)
    ensures IsUpper(c) ==> IsLower(l)
    ensures !IsUpper(c) ==> l == c
  {
    if IsUpper(c) then (c as int + 32) as char else c
  }

  /** capitalize: the first character upper case, the rest lower case. */
  function Capitalize(s: string): (r: string)
    ensures |r| == |s|
    ensures s != [] ==> r[0] == ToUpper(s[0])
    ensures forall i :: 1 <= i < |s| ==> r[i] == ToLower(s[i])
  {
    if s == [] then [] else [ToUpper(s[0])] + LowerAll(s[1..])
  }

  function LowerAll(s: string): (r: string)
    ensures |r| == |s| && forall i :: 0 <= i < |s| ==> r[i] == ToLower(s[i])
  {
    if s == [] then [] else [ToLower(s[0])] + LowerAll(s[1..])
  }

  /** camelToSnake: each capital letter becomes '_' and its lower case. */
  function CamelToSnake(s: string): (r: string)
    ensures |r| >= |s|
    ensures forall i :: 0 <= i < |r| ==> !IsUpper(r[i])
  {
    if s == [] then []
    else (if IsUpper(s[0]) then ['_', ToLower(s[0])] else [s[0]]) + CamelToSnake(s[1..])
  }

  /** snakeToCamel: each '_' followed by a small letter becomes that letter
      in capitals, matching from the left without overlaps. */
  function SnakeToCamel(s: string): (r: string)
    ensures |r| <= |s|
  {
    if s == [] then []
    else if |s| >= 2 && s[0] == '_' && IsLower(s[1]) then [ToUpper(s[1])] + SnakeToCamel(s[2..])
    else [s[0]] + SnakeToCamel(s[1..])
  }

  /** Without underscores, snakeToCamel undoes camelToSnake. */
  lemma {:induction false} CamelSnakeRoundTrip(s: string)
    requires forall i :: 0 <= i < |s| ==> s[i] != '_'
    ensures SnakeToCamel(CamelToSnake(s)) == s
    decreases |s|
  {
    if s != [] {
      CamelSnakeRoundTrip(s[1..]);
      var rest := CamelToSnake(s[1..]);
      if IsUpper(s[0]) {
        assert (['_', ToLower(s[0])] + rest)[2..] == rest;
      } else {
        assert ([s[0]] + rest)[1..] == rest;
      }
    }
  }

  /** Snake case proper: no capitals, and every '_' followed by a small
      letter. */
  predicate IsSnake(s: string) {
    && (forall i :: 0 <= i < |s| ==> !IsUpper(s[i]))
    && forall i :: 0 <= i < |s| && s[i] == '_' ==> i + 1 < |s| && IsLower(s[i + 1])
  }

  /** On snake case proper, camelToSnake undoes snakeToCamel. */
  lemma {:induction false} SnakeCamelRoundTrip(s: string)
    requires IsSnake(s)
    ensures CamelToSnake(SnakeToCamel(s)) == s
    decreases |s|
  {
    if s != [] {
      if |s| >= 2 && s[0] == '_' && IsLower(s[1]) {
        assert IsSnake(s[2..]) by {
          forall i | 0 <= i < |s[2..]| && s[2..][i] == '_'
            ensures i + 1 < |s[2..]| && IsLower(s[2..][i + 1])
          {
            assert s[i + 2] == '_';
          }
        }
        SnakeCamelRoundTrip(s[2..]);
        var u := ToUpper(s[1]);
        assert ([u] + SnakeToCamel(s[2..]))[1..] == SnakeToCamel(s[2..]);
        assert s == ['_', s[1]] + s[2..];
      } else {
        assert IsSnake(s[1..]) by {
          forall i | 0 <= i < |s[1..]| && s[1..][i] == '_'
            ensures i + 1 < |s[1..]| && IsLower(s[1..][i + 1])
          {
            assert s[i + 1] == '_';
          }
        }
        SnakeCamelRoundTrip(s[1..]);
        assert ([s[0]] + SnakeToCamel(s[1..]))[1..] == SnakeToCamel(s[1..]);
        assert s == [s[0]] + s[1..];
      }
    }
  }
}
