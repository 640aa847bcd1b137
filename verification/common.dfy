/** Shared vocabulary of the store model: identifiers, the result type every
    handler returns, the database error record handed to the error
    middleware, and the string and sequence helpers several collections use. */
module Common {

  /** Document identifiers are opaque; natural numbers stand in for ObjectIds. */
  type Id = nat

  datatype Option<+T> = None | Some(value: T)

  /** `o ?? default` (and `o || default` for values that are never falsy). */
  function Or<T>(o: Option<T>, default: T): (r: T)
    ensures o.Some? ==> r == o.value
    ensures o.None? ==> r == default
  {
    match o
    case Some(v) => v
    case None => default
  }

  /** A database or validation error as the driver raises it and a handler
      forwards it with `next(error)`: its `name`, its numeric `code`, the keys
      of `keyValue` (for a duplicate key), the messages of `errors` (for a
      validation failure), an optional own `statusCode`, and `message`. */
  datatype DbError = DbError(
    name: string,
    code: Option<int>,
    keyValue: seq<string>,
    messages: seq<string>,
    statusCode: Option<int>,
    message: string)

  /** How a handler fails: it either answers by itself with a status and the
      `error` string of the JSON envelope, or forwards a thrown error to the
      error middleware. */
  datatype Failure = Respond(status: nat, error: string) | Thrown(err: DbError)

  datatype Result<+T> = Ok(value: T) | Err(failure: Failure)

  /** The schema-validation error Mongoose raises when `save`/`create`
      validators fail, one message per failing path. */
  function ValidationError(messages: seq<string>): (e: DbError)
    ensures e.name == "ValidationError" && e.messages == messages && e.code == None
  {
    DbError("ValidationError", None, [], messages, None, "Validation failed")
  }

  /** The MongoDB unique-index violation (code 11000) on the given key. */
  function DuplicateKey(key: string): (e: DbError)
    ensures e.code == Some(11000) && e.keyValue == [key] && e.name != "ValidationError"
  {
    DbError("MongoServerError", Some(11000), [key], [], None, "E11000 duplicate key error")
  }

  // ---------------------------------------------------------------------
  // Strings

  /** JavaScript's white-space and line-terminator class: the characters
      `\s` matches and `String.prototype.trim` strips. */
  predicate IsSpace(c: char) {
    || c == ' ' || c == '\t' || c == '\n' || c == '\r'
    || c == '\U{000B}' || c == '\U{000C}' || c == '\U{00A0}' || c == '\U{1680}'
    || ('\U{2000}' <= c <= '\U{200A}')
    || c == '\U{2028}' || c == '\U{2029}' || c == '\U{202F}' || c == '\U{205F}'
    || c == '\U{3000}' || c == '\U{FEFF}'
  }

  /** Empty or made only of white space. */
  predicate IsBlank(s: string) {
    forall i :: 0 <= i < |s| ==> IsSpace(s[i])
  }

  /** Neither starts nor ends with white space. */
  predicate Unpadded(s: string) {
    s == [] || (!IsSpace(s[0]) && !IsSpace(s[|s| - 1]))
  }

  function TrimStart(s: string): (r: string)
    ensures |r| <= |s| && r == s[|s| - |r|..]
    ensures forall i :: 0 <= i < |s| - |r| ==> IsSpace(s[i])
    ensures r == [] || !IsSpace(r[0])
  {
    if |s| > 0 && IsSpace(s[0]) then TrimStart(s[1..]) else s
  }

  function TrimEnd(s: string): (r: string)
    ensures |r| <= |s| && r == s[..|r|]
    ensures forall i :: |r| <= i < |s| ==> IsSpace(s[i])
    ensures r == [] || !IsSpace(r[|r| - 1])
  {
    if |s| > 0 && IsSpace(s[|s| - 1]) then TrimEnd(s[..|s| - 1]) else s
  }

  /** `String.prototype.trim`, which is also what a schema's `trim: true` applies. */
  function Trim(s: string): (r: string)
    ensures |r| <= |s|
    ensures forall i :: 0 <= i < |r| ==> r[i] in s
    ensures Unpadded(r)
    ensures r == [] <==> IsBlank(s)
  {
    TrimSlice(s);
    TrimEnds(s);
    TrimEmpty(s);
    TrimEnd(TrimStart(s))
  }

  /** `r` is `s` with a blank prefix of `k` characters and a blank suffix
      cut off, the middle kept as it is. */
  predicate EsRecorte(r: string, s: string, k: nat) {
    && k + |r| <= |s|
    && (forall i :: 0 <= i < k ==> IsSpace(s[i]))
    && (forall i :: k + |r| <= i < |s| ==> IsSpace(s[i]))
    && (forall i :: 0 <= i < |r| ==> r[i] == s[k + i])
  }

  /** What trimming is: the input with a blank prefix and a blank suffix
      cut off and the middle kept as it is. (Stated apart from `Trim`'s
      contract: as a postcondition it would let the solver unfold
      `Trim(t) == t` without end.) */
  lemma TrimRecorta(s: string)
    ensures exists k: nat :: EsRecorte(Trim(s), s, k)
  {
    TrimMedio(s);
    TrimCola(s);
    assert EsRecorte(Trim(s), s, |s| - |TrimStart(s)|);
  }

  lemma TrimMedio(s: string)
    ensures var t := TrimStart(s); var r := TrimEnd(t);
      forall i :: 0 <= i < |r| ==> r[i] == s[|s| - |t| + i]
  {
    var t := TrimStart(s);
    var r := TrimEnd(t);
    forall i | 0 <= i < |r| ensures r[i] == s[|s| - |t| + i] {
      assert r[i] == t[i];
    }
  }

  lemma TrimCola(s: string)
    ensures var t := TrimStart(s); var r := TrimEnd(t);
      forall i :: |s| - |t| + |r| <= i < |s| ==> IsSpace(s[i])
  {
    var t := TrimStart(s);
    var r := TrimEnd(t);
    var k := |s| - |t|;
    forall i | k + |r| <= i < |s| ensures IsSpace(s[i]) {
      assert s[i] == t[i - k];
    }
  }

  lemma TrimSlice(s: string)
    ensures var r := TrimEnd(TrimStart(s));
      forall i :: 0 <= i < |r| ==> r[i] in s
  {
    var t := TrimStart(s);
    var r := TrimEnd(t);
    SliceChars(s, |s| - |t|, |r|);
    assert r == s[|s| - |t|..][..|r|];
  }

  lemma TrimEnds(s: string)
    ensures Unpadded(TrimEnd(TrimStart(s)))
  {
    var t := TrimStart(s);
    var r := TrimEnd(t);
    if r != [] {
      assert r[0] == t[0];
      assert !IsSpace(t[0]);
      assert !IsSpace(r[|r| - 1]);
    }
  }

  lemma SliceChars(s: string, o: nat, n: nat)
    requires o + n <= |s|
    ensures forall i :: 0 <= i < n ==> s[o..][..n][i] in s
  {
    forall i | 0 <= i < n ensures s[o..][..n][i] in s {
      assert s[o..][..n][i] == s[o + i];
    }
  }

  lemma {:induction false} TrimStartBlank(s: string)
    requires IsBlank(s)
    ensures TrimStart(s) == []
  {
    if s != [] {
      TrimStartBlank(s[1..]);
    }
  }

  lemma TrimEmpty(s: string)
    ensures TrimEnd(TrimStart(s)) == [] <==> IsBlank(s)
  {
    var t := TrimStart(s);
    var r := TrimEnd(t);
    assert r == [] ==> t == [];
    if IsBlank(s) {
      TrimStartBlank(s);
    }
  }

  /** Trimming leaves an unpadded string alone ... */
  lemma {:induction false} TrimUnpadded(s: string)
    requires Unpadded(s)
    ensures Trim(s) == s
  {
    if s != [] {
      assert TrimStart(s) == s;
      assert TrimEnd(s) == s;
    }
  }

  /** ... so trimming twice is trimming once. */
  lemma TrimIdempotent(s: string)
    ensures Trim(Trim(s)) == Trim(s)
  {
    TrimUnpadded(Trim(s));
  }

  /** One character's ASCII lower-casing. */
  function MinusculaAscii(c: char): char {
    if 'A' <= c <= 'Z' then (c - 'A' + 'a') as char else c
  }

  /** The ASCII lower-casing that `lowercase: true` applies to an e-mail. */
  function ToLowerAscii(s: string): (r: string)
    ensures |r| == |s|
    ensures forall i :: 0 <= i < |s| ==> r[i] == MinusculaAscii(s[i])
    ensures forall i :: 0 <= i < |s| ==> (IsSpace(r[i]) <==> IsSpace(s[i]))
    ensures forall i :: 0 <= i < |s| ==> !('A' <= r[i] <= 'Z')
    ensures forall i :: 0 <= i < |s| && 'A' <= s[i] <= 'Z' ==> r[i] == (s[i] - 'A' + 'a') as char
    ensures forall i :: 0 <= i < |s| && !('A' <= s[i] <= 'Z') ==> r[i] == s[i]
  {
    if s == [] then []
    else
      var c := s[0];
      var resto := ToLowerAscii(s[1..]);
      assert forall i :: 1 <= i < |s| ==> s[i] == s[1..][i - 1];
      [MinusculaAscii(c)] + resto
  }

  /** Messages joined the way `Array.prototype.join` joins them. */
  function Join(xs: seq<string>, sep: string): (r: string)
    ensures |xs| == 1 ==> r == xs[0]
    ensures xs == [] ==> r == ""
  {
    if |xs| == 0 then "" else if |xs| == 1 then xs[0] else xs[0] + sep + Join(xs[1..], sep)
  }

  function Digit(d: nat): (c: char)
    requires d < 10
    ensures '0' <= c <= '9'
  {
    "0123456789"[d]
  }

  /** Decimal rendering of a whole number, as a template literal prints it. */
  function NatToString(n: nat): (r: string)
    ensures |r| >= 1
    ensures forall i :: 0 <= i < |r| ==> '0' <= r[i] <= '9'
  {
    if n < 10 then [Digit(n)] else NatToString(n / 10) + [Digit(n % 10)]
  }

  function IntToString(n: int): (r: string)
    ensures |r| >= 1
  {
    if n < 0 then "-" + NatToString(-n) else NatToString(n)
  }

  // ---------------------------------------------------------------------
  // Sequences

  function Sum(xs: seq<int>): int {
    if xs == [] then 0 else xs[0] + Sum(xs[1..])
  }

  lemma {:induction false} SumAppend(a: seq<int>, b: seq<int>)
    ensures Sum(a + b) == Sum(a) + Sum(b)
  {
    if a == [] {
      assert a + b == b;
    } else {
      assert (a + b)[1..] == a[1..] + b;
      SumAppend(a[1..], b);
    }
  }

  /** No element occurs twice. */
  predicate Distinct<T(==)>(xs: seq<T>) {
    forall i, j :: 0 <= i < j < |xs| ==> xs[i] != xs[j]
  }

  /** A sequence without repetitions has as many elements as its set. */
  lemma {:induction false} DistinctCard<T>(xs: seq<T>)
    requires Distinct(xs)
    ensures |set x | x in xs| == |xs|
  {
    if xs != [] {
      var tail := xs[1..];
      assert Distinct(tail) by {
        forall i, j | 0 <= i < j < |tail| ensures tail[i] != tail[j] {
          assert tail[i] == xs[i + 1] && tail[j] == xs[j + 1];
        }
      }
      DistinctCard(tail);
      assert xs[0] !in tail by {
        forall k | 0 <= k < |tail| ensures tail[k] != xs[0] {
          assert tail[k] == xs[k + 1];
        }
      }
      assert (set x | x in xs) == (set x | x in tail) + {xs[0]} by {
        assert xs == [xs[0]] + tail;
      }
    }
  }

  /** The keys of `m` below `n`, in ascending order: a collection's natural
      order when ids are handed out in increasing order. */
  function KeysBelow<T>(m: map<Id, T>, n: nat): (ks: seq<Id>)
    ensures forall i :: 0 <= i < |ks| ==> ks[i] in m && ks[i] < n
    ensures forall k :: k in m && k < n ==> k in ks
    ensures forall i, j :: 0 <= i < j < |ks| ==> ks[i] < ks[j]
  {
    if n == 0 then []
    else if n - 1 in m then KeysBelow(m, n - 1) + [n - 1]
    else KeysBelow(m, n - 1)
  }
}
