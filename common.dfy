/** Vocabulary shared by the adapters, the pages and the request handlers:
    optional values, the JavaScript values that arrive in request bodies,
    the outcome of a vendor HTTP call, decimal rendering and substring search. */
module Common {

  datatype Option<+T> = None | Some(value: T) {
    function GetOr(default: T): T {
      match this
      case Some(v) => v
      case None => default
    }
  }

  /** `x || d` on an optional string: the empty string and a missing value are both falsy. */
  function OrElse(s: Option<string>, default: string): (r: string)
    ensures r == default || (s.Some? && r == s.value && r != "")
    ensures s.Some? && s.value != "" ==> r == s.value
  {
    if s.Some? && s.value != "" then s.value else default
  }

  /** A string option that JavaScript treats as true (`!x` is false). */
  predicate Present(s: Option<string>) {
    s.Some? && s.value != ""
  }

  /** A value taken from a JSON request body, as the handlers receive it. */
  datatype Value = Absent | Null | Flag(b: bool) | Number(n: int) | Text(s: string)

  /** JavaScript truthiness of a body value. */
  predicate Truthy(v: Value) {
    match v
    case Absent => false
    case Null => false
    case Flag(b) => b
    case Number(n) => n != 0
    case Text(s) => s != ""
  }

  /** What a template literal `${v}` produces for a body value. */
  function Render(v: Value): string {
    match v
    case Absent => "undefined"
    case Null => "null"
    case Flag(b) => if b then "true" else "false"
    case Number(n) => IntToString(n)
    case Text(s) => s
  }

  /** The JSON answer of a control handler: `{message}` alone for a rejected
      request (`success` missing), `{success, message}` otherwise, with
      `mock: true` when no vendor call was made. */
  datatype ControlResponse = ControlResponse(status: int, success: Option<bool>, message: string, mock: bool)

  /** The outcome of one vendor HTTP call: a status code with the parsed
      body, or an exception (network failure, timeout, unparsable body). */
  datatype Reply<T> = Reply(status: int, body: T) | Threw

  /** `response.ok`: the status is in the 2xx range. */
  predicate IsOk<T>(r: Reply<T>) {
    r.Reply? && 200 <= r.status <= 299
  }

  // ---------------------------------------------------------------------
  // Decimal rendering (what `${n}` and `n.toString()` produce for integers)

  predicate IsDigit(c: char) {
    '0' <= c <= '9'
  }

  predicate AllDigits(s: string) {
    forall i :: 0 <= i < |s| ==> IsDigit(s[i])
  }

  function DigitChar(d: nat): (c: char)
    requires d < 10
    ensures IsDigit(c) && c as int - '0' as int == d
  {
    (('0' as int) + d) as char
  }

  /** Decimal digits of `n`, most significant first, without leading zeros. */
  function NatToString(n: nat): (s: string)
    ensures |s| >= 1 && AllDigits(s)
    ensures |s| == 1 <==> n < 10
    decreases n
  {
    if n < 10 then [DigitChar(n)] else NatToString(n / 10) + [DigitChar(n % 10)]
  }

  function IntToString(n: int): string {
    if n < 0 then "-" + NatToString(-n) else NatToString(n)
  }

  /** The number a string of decimal digits denotes. */
  function DigitsValue(s: string): nat
    requires AllDigits(s)
  {
    if s == [] then 0 else DigitsValue(s[..|s| - 1]) * 10 + (s[|s| - 1] as int - '0' as int)
  }

  /** Reading back the digits of `n` gives `n`. */
  lemma {:induction false} NatToStringRoundTrip(n: nat)
    ensures DigitsValue(NatToString(n)) == n
    decreases n
  {
    if n >= 10 {
      var s := NatToString(n);
      NatToStringRoundTrip(n / 10);
      assert s[..|s| - 1] == NatToString(n / 10);
    }
  }

  // ---------------------------------------------------------------------
  // Substring search (`String.prototype.includes`)

  /** `hay.includes(needle)`. */
  predicate Contains(hay: string, needle: string)
    decreases |hay|
  {
    if |needle| > |hay| then false
    else if hay[..|needle|] == needle then true
    else Contains(hay[1..], needle)
  }

  /** `needle` occurs in `hay` starting at index `i`. */
  predicate OccursAt(hay: string, needle: string, i: int) {
    0 <= i <= |hay| - |needle| && hay[i..i + |needle|] == needle
  }

  /** `Contains` agrees with the existence of an occurrence. */
  lemma {:induction false} ContainsOccurrence(hay: string, needle: string)
    ensures Contains(hay, needle) <==> exists i :: OccursAt(hay, needle, i)
    decreases |hay|
  {
    if |needle| > |hay| {
    } else if hay[..|needle|] == needle {
      assert OccursAt(hay, needle, 0);
    } else {
      ContainsOccurrence(hay[1..], needle);
      if Contains(hay[1..], needle) {
        var j :| OccursAt(hay[1..], needle, j);
        assert hay[j + 1..j + 1 + |needle|] == hay[1..][j..j + |needle|];
        assert OccursAt(hay, needle, j + 1);
      }
      if exists i :: OccursAt(hay, needle, i) {
        var i :| OccursAt(hay, needle, i);
        assert i != 0;
        assert hay[1..][i - 1..i - 1 + |needle|] == hay[i..i + |needle|];
        assert OccursAt(hay[1..], needle, i - 1);
      }
    }
  }

  /** Concatenation regroups freely; stated once so that proofs can ask for
      the one regrouping they need. */
  lemma ConcatAssoc<T>(x: seq<T>, y: seq<T>, z: seq<T>)
    ensures (x + y) + z == x + (y + z)
  {
  }

  /** A non-empty sequence is its front followed by its last element. */
  lemma LastSplit<T>(s: seq<T>)
    requires s != []
    ensures s == s[..|s| - 1] + [s[|s| - 1]]
  {
  }

  // ---------------------------------------------------------------------
  // Splitting on a separator (`String.prototype.split` with a one-character
  // separator) and its inverse, joining

  /** `s.split(sep)`: the pieces between occurrences of `sep`, in order. */
  function Split(s: string, sep: char): (parts: seq<string>)
    ensures |parts| >= 1
    decreases |s|
  {
    if s == [] then [""]
    else if s[0] == sep then [""] + Split(s[1..], sep)
    else
      var rest := Split(s[1..], sep);
      [[s[0]] + rest[0]] + rest[1..]
  }

  /** `parts.join(sep)`. */
  function Join(parts: seq<string>, sep: char): string
    requires |parts| >= 1
    decreases |parts|
  {
    if |parts| == 1 then parts[0] else parts[0] + [sep] + Join(parts[1..], sep)
  }

  /** The number of occurrences of `c` in `s`. */
  function CountChar(s: string, c: char): nat
    decreases |s|
  {
    if s == [] then 0 else (if s[0] == c then 1 else 0) + CountChar(s[1..], c)
  }

  /** Joining the pieces back with the separator reproduces the input. */
  lemma {:induction false} JoinSplit(s: string, sep: char)
    ensures Join(Split(s, sep), sep) == s
    decreases |s|
  {
    if s != [] {
      JoinSplit(s[1..], sep);
      var rest := Split(s[1..], sep);
      if s[0] == sep {
        assert Split(s, sep)[1..] == rest;
      } else {
        var parts := Split(s, sep);
        assert parts[0] == [s[0]] + rest[0] && parts[1..] == rest[1..];
        if |rest| > 1 {
          assert Join(parts, sep) == [s[0]] + rest[0] + [sep] + Join(rest[1..], sep);
        }
      }
    }
  }

  /** There is one more piece than there are separators, and no piece holds one. */
  lemma {:induction false} SplitShape(s: string, sep: char)
    ensures |Split(s, sep)| == CountChar(s, sep) + 1
    ensures forall i, j :: 0 <= i < |Split(s, sep)| && 0 <= j < |Split(s, sep)[i]| ==> Split(s, sep)[i][j] != sep
    decreases |s|
  {
    if s != [] {
      SplitShape(s[1..], sep);
      var rest := Split(s[1..], sep);
      var parts := Split(s, sep);
      if s[0] != sep {
        forall i, j | 0 <= i < |parts| && 0 <= j < |parts[i]| ensures parts[i][j] != sep {
          if i == 0 {
            if j > 0 {
              assert parts[0][j] == rest[0][j - 1];
            }
          } else {
            assert parts[i] == rest[i];
          }
        }
      } else {
        forall i, j | 0 <= i < |parts| && 0 <= j < |parts[i]| ensures parts[i][j] != sep {
          assert i > 0 && parts[i] == rest[i - 1];
        }
      }
    }
  }

  /** No piece of `parts` holds the separator. */
  predicate NoSepIn(parts: seq<string>, sep: char) {
    forall i, j :: 0 <= i < |parts| && 0 <= j < |parts[i]| ==> parts[i][j] != sep
  }

  /** Splitting the joined pieces recovers them when no piece holds the separator. */
  lemma {:induction false} SplitJoin(parts: seq<string>, sep: char)
    requires |parts| >= 1
    requires NoSepIn(parts, sep)
    ensures Split(Join(parts, sep), sep) == parts
    decreases |parts|, |parts[0]|, 1
  {
    if |parts| == 1 {
      SplitNoSep(parts[0], sep);
    } else if parts[0] == [] {
      SplitJoinEmptyHead(parts, sep);
    } else {
      SplitJoinCharHead(parts, sep);
    }
  }

  lemma {:induction false} SplitJoinEmptyHead(parts: seq<string>, sep: char)
    requires |parts| >= 2 && parts[0] == []
    requires NoSepIn(parts, sep)
    ensures Split(Join(parts, sep), sep) == parts
    decreases |parts|, |parts[0]|, 0
  {
    var rest := parts[1..];
    assert NoSepIn(rest, sep) by {
      forall i, j | 0 <= i < |rest| && 0 <= j < |rest[i]| ensures rest[i][j] != sep {
        assert rest[i] == parts[i + 1];
      }
    }
    SplitJoin(rest, sep);
    var joined := Join(parts, sep);
    assert joined == [sep] + Join(rest, sep);
    assert joined[1..] == Join(rest, sep);
    assert [""] + rest == parts;
  }

  lemma {:induction false} SplitJoinCharHead(parts: seq<string>, sep: char)
    requires |parts| >= 2 && parts[0] != []
    requires NoSepIn(parts, sep)
    ensures Split(Join(parts, sep), sep) == parts
    decreases |parts|, |parts[0]|, 0
  {
    var tail := [parts[0][1..]] + parts[1..];
    assert NoSepIn(tail, sep) by {
      forall i, j | 0 <= i < |tail| && 0 <= j < |tail[i]| ensures tail[i][j] != sep {
        if i == 0 {
          assert tail[0][j] == parts[0][j + 1];
        } else {
          assert tail[i] == parts[i];
        }
      }
    }
    SplitJoin(tail, sep);
    JoinCons(parts, sep);
    SplitCons(parts[0][0], Join(tail, sep), sep);
    assert [parts[0][0]] + tail[0] == parts[0];
    assert tail[1..] == parts[1..];
    assert [parts[0]] + parts[1..] == parts;
  }

  /** Joining when the first piece is not empty: its first character, then
      the join of the rest. */
  lemma JoinCons(parts: seq<string>, sep: char)
    requires |parts| >= 2 && parts[0] != []
    ensures Join(parts, sep) == [parts[0][0]] + Join([parts[0][1..]] + parts[1..], sep)
  {
    var tail := [parts[0][1..]] + parts[1..];
    var rest := Join(parts[1..], sep);
    assert tail[1..] == parts[1..];
    assert Join(tail, sep) == parts[0][1..] + [sep] + rest;
    assert parts[0] == [parts[0][0]] + parts[0][1..];
    ConcatAssoc([parts[0][0]], parts[0][1..], [sep]);
    ConcatAssoc([parts[0][0]], parts[0][1..] + [sep], rest);
  }

  /** Splitting a string that starts with a non-separator: that character
      opens the first piece. */
  lemma SplitCons(c: char, s: string, sep: char)
    requires c != sep
    ensures Split([c] + s, sep) == [[c] + Split(s, sep)[0]] + Split(s, sep)[1..]
  {
    assert ([c] + s)[1..] == s;
  }

  /** A string without the separator splits into itself alone. */
  lemma {:induction false} SplitNoSep(s: string, sep: char)
    requires forall j :: 0 <= j < |s| ==> s[j] != sep
    ensures Split(s, sep) == [s]
    decreases |s|
  {
    if s != [] {
      SplitNoSep(s[1..], sep);
      assert [s[0]] + s[1..] == s;
    }
  }
}
