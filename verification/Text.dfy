/** Character strings as the C++ sources use them: search, C-string truncation,
    decimal numerals and the concatenation of chunks. */
module Text {

  datatype Option<+T> = None | Some(value: T) {
    predicate IsFailure() {
      None?
    }

    function PropagateFailure<U>(): Option<U>
      requires None?
    {
      None
    }

    function Extract(): T
      requires Some?
    {
      value
    }
  }

  /** The C++ exceptions that reach a caller. */
  datatype Error = InvalidArgument | OutOfRange | RuntimeError | SocketError

  datatype Result<+T> = Ok(value: T) | Err(error: Error)

  /** `s.find_first_of(c, from)`; `None` stands for `npos`. */
  function Find(s: string, c: char, from: nat): (r: Option<nat>)
    ensures r.Some? ==> from <= r.value < |s| && s[r.value] == c && forall i :: from <= i < r.value ==> s[i] != c
    ensures r.None? ==> forall i :: from <= i < |s| ==> s[i] != c
    decreases |s| - from
  {
    if from >= |s| then None
    else if s[from] == c then Some(from)
    else Find(s, c, from + 1)
  }

  /** The first occurrence is unique, which pins `Find` down. */
  lemma FindIs(s: string, c: char, from: nat, p: nat)
    requires from <= p < |s| && s[p] == c && forall i :: from <= i < p ==> s[i] != c
    ensures Find(s, c, from) == Some(p)
  {
    var r := Find(s, c, from);
    assert r.Some? && !(r.value < p) && !(p < r.value);
  }

  lemma FindNothing(s: string, c: char, from: nat)
    requires forall i :: from <= i < |s| ==> s[i] != c
    ensures Find(s, c, from) == None
  {
    var r := Find(s, c, from);
    assert !r.Some?;
  }

  /** `s.find_last_of(c)`. */
  function FindLast(s: string, c: char): (r: Option<nat>)
    ensures r.Some? ==> r.value < |s| && s[r.value] == c && forall i :: r.value < i < |s| ==> s[i] != c
    ensures r.None? ==> forall i :: 0 <= i < |s| ==> s[i] != c
  {
    if s == [] then None
    else if s[|s| - 1] == c then Some(|s| - 1)
    else FindLast(s[..|s| - 1], c)
  }

  const NUL: char := '\0'
  const NL: char := '\n'

  /** What a `const char*` reader sees of the bytes `s`: everything before the first NUL. */
  function CString(s: string): (r: string)
    ensures r <= s && NUL !in r
    ensures |r| < |s| ==> s[|r|] == NUL
  {
    match Find(s, NUL, 0)
    case None => s
    case Some(p) => s[..p]
  }

  lemma CStringKeepsAllIffNulFree(s: string)
    ensures |CString(s)| <= |s|
    ensures CString(s) == s <==> NUL !in s
    ensures |CString(s)| == |s| <==> NUL !in s
  {
  }

  // ----- decimal numerals: std::to_string on an unsigned value

  function Digit(d: nat): char
    requires d < 10
  {
    '0' + d as char
  }

  predicate IsDigit(c: char) {
    '0' <= c <= '9'
  }

  function Decimal(n: nat): (s: string)
    ensures s != [] && forall i :: 0 <= i < |s| ==> IsDigit(s[i])
  {
    if n < 10 then [Digit(n)] else Decimal(n / 10) + [Digit(n % 10)]
  }

  /** Reads a numeral; characters that are not digits count as zero. */
  function Numeral(s: string): nat {
    if s == [] then 0
    else
      var c := s[|s| - 1];
      10 * Numeral(s[..|s| - 1]) + if IsDigit(c) then (c - '0') as nat else 0
  }

  lemma {:induction false} NumeralOfDecimal(n: nat)
    ensures Numeral(Decimal(n)) == n
  {
    var s := Decimal(n);
    if n < 10 {
      assert s[..|s| - 1] == [];
    } else {
      NumeralOfDecimal(n / 10);
      assert s[..|s| - 1] == Decimal(n / 10);
    }
  }

  // ----- chunks

  function Flatten(chunks: seq<string>): string {
    if chunks == [] then [] else chunks[0] + Flatten(chunks[1..])
  }

  function CStrings(chunks: seq<string>): (r: seq<string>)
    ensures |r| == |chunks|
    ensures forall i :: 0 <= i < |r| ==> r[i] == CString(chunks[i])
  {
    if chunks == [] then [] else [CString(chunks[0])] + CStrings(chunks[1..])
  }

  lemma Assoc(a: string, b: string, c: string)
    ensures a + b + c == a + (b + c)
  {
  }

  lemma AssocParts(a: seq<string>, b: seq<string>, c: seq<string>)
    ensures a + b + c == a + (b + c)
  {
  }

  lemma TailOfAppend(a: seq<string>, b: seq<string>)
    requires a != []
    ensures (a + b)[0] == a[0] && (a + b)[1..] == a[1..] + b
  {
  }

  lemma {:induction false} FlattenAppend(a: seq<string>, b: seq<string>)
    ensures Flatten(a + b) == Flatten(a) + Flatten(b)
  {
    if a == [] {
      assert a + b == b;
    } else {
      FlattenAppend(a[1..], b);
      TailOfAppend(a, b);
      Assoc(a[0], Flatten(a[1..]), Flatten(b));
    }
  }

  lemma FlattenSnoc(chunks: seq<string>, i: nat)
    requires i < |chunks|
    ensures Flatten(chunks[..i + 1]) == Flatten(chunks[..i]) + chunks[i]
  {
    FlattenAppend(chunks[..i], [chunks[i]]);
    assert chunks[..i + 1] == chunks[..i] + [chunks[i]];
    assert Flatten([chunks[i]]) == chunks[i] + Flatten([]);
  }

  lemma {:induction false} FlattenCStrings(chunks: seq<string>)
    ensures |Flatten(CStrings(chunks))| <= |Flatten(chunks)|
    ensures |Flatten(CStrings(chunks))| == |Flatten(chunks)| <==> forall c <- chunks :: NUL !in c
    ensures (forall c <- chunks :: NUL !in c) ==> CStrings(chunks) == chunks
  {
    if chunks != [] {
      CStringKeepsAllIffNulFree(chunks[0]);
      FlattenCStrings(chunks[1..]);
      assert CStrings(chunks)[1..] == CStrings(chunks[1..]);
      assert forall c :: c in chunks <==> c == chunks[0] || c in chunks[1..];
    }
  }

  /** `parts` with `sep` between neighbours. */
  function Join(parts: seq<string>, sep: string): string {
    if parts == [] then []
    else if |parts| == 1 then parts[0]
    else parts[0] + sep + Join(parts[1..], sep)
  }

  /** What a loop that appends one part at a time has built after one more part. */
  lemma {:induction false} JoinSnoc(parts: seq<string>, last: string, sep: string)
    ensures Join(parts + [last], sep) == if parts == [] then last else Join(parts, sep) + sep + last
  {
    if parts == [] {
      assert parts + [last] == [last];
    } else {
      JoinSnoc(parts[1..], last, sep);
      assert (parts + [last])[1..] == parts[1..] + [last];
      assert (parts + [last])[0] == parts[0];
      if |parts| == 1 {
        assert parts[1..] == [];
      }
    }
  }
}
