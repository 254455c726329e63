/** Shared vocabulary of both services: identifiers, nullable values, results,
    decimal text of identifiers, raw JSON-like maps, HTTP responses, and the
    order in which the model walks a `java.util.Set`. */
module Common {

  /** A `Long` identifier assigned by a store. */
  type Id = int

  /** A Java reference that may be `null`. */
  datatype Option<T> = None | Some(value: T)

  /** Either a normal return or a thrown exception. */
  datatype Result<T, E> = Success(value: T) | Failure(error: E)

  /** A status code and a body, as a `ResponseEntity<String>` carries them. */
  datatype HttpResponse = HttpResponse(status: int, body: string)

  /** A value of a `Map<String, Object>` built from an entity. */
  datatype RawValue = IntValue(i: int) | TextValue(s: string)

  type RawMap = map<string, RawValue>

  function Digit(d: nat): char
    requires d < 10
  {
    "0123456789"[d]
  }

  function DecimalText(n: nat): (s: string)
    ensures |s| > 0
    decreases n
  {
    if n < 10 then [Digit(n)] else DecimalText(n / 10) + [Digit(n % 10)]
  }

  /** The text `String.valueOf` gives a `Long`. */
  function IdText(n: Id): string
  {
    if n < 0 then "-" + DecimalText(-n) else DecimalText(n)
  }

  /** The text `String.format("%s", x)` gives a nullable `Long`. */
  function OptionIdText(x: Option<Id>): string
  {
    match x
    case None => "null"
    case Some(n) => IdText(n)
  }

  lemma {:induction false} HasMember(s: set<Id>)
    requires s != {}
    ensures exists y :: y in s
  {
    if forall y :: y !in s { assert false; }
  }

  lemma {:induction false} MinExists(s: set<Id>)
    requires s != {}
    ensures exists m :: m in s && forall y :: y in s ==> m <= y
    decreases |s|
  {
    HasMember(s);
    var x :| x in s;
    var rest := s - {x};
    if exists z :: z in rest {
      MinExists(rest);
      var m :| m in rest && forall y :: y in rest ==> m <= y;
      var w := if x < m then x else m;
      forall y | y in s ensures w <= y { if y != x { assert y in rest; } }
    } else {
      forall y | y in s ensures x <= y { if y != x { assert false; } }
    }
  }

  /** The least element of a non-empty set of identifiers. */
  function Min(s: set<Id>): (m: Id)
    requires s != {}
    ensures m in s && forall y :: y in s ==> m <= y
  {
    MinExists(s);
    var m :| m in s && forall y :: y in s ==> m <= y; m
  }

  /** The order in which the model iterates a set: ascending. Java leaves the
      iteration order of a `HashSet` unspecified; any fixed order would do, and
      this one lists every element exactly once. */
  function Elements(s: set<Id>): (r: seq<Id>)
    ensures |r| == |s|
    ensures forall x :: x in r <==> x in s
    decreases |s|
  {
    if s == {} then [] else
    var m := Min(s);
    [m] + Elements(s - {m})
  }

  /** `Elements` lists the set in strictly ascending order, so no element
      appears twice. */
  lemma {:induction false} ElementsAscending(s: set<Id>)
    ensures forall i, j :: 0 <= i < j < |Elements(s)| ==> Elements(s)[i] < Elements(s)[j]
    decreases |s|
  {
    if s != {} {
      var m := Min(s);
      var rest := Elements(s - {m});
      ElementsAscending(s - {m});
      assert Elements(s) == [m] + rest;
      forall j | 0 <= j < |rest| ensures m < rest[j] {
        assert rest[j] in s - {m};
      }
    }
  }

  /** The keys of a map, in the order the model walks them. */
  function KeysInOrder<V>(m: map<Id, V>): (r: seq<Id>)
    ensures |r| == |m|
    ensures forall i :: 0 <= i < |r| ==> r[i] in m
    ensures forall k :: k in m ==> k in r
  {
    var r := Elements(m.Keys);
    assert |m.Keys| == |m|;
    r
  }
}

/** The remote peer as the calling service sees it through its Feign client:
    a reply is a body, an empty body, or a `FeignException` with a status. */
module Peer {

  /** A `FeignException`. Feign's default error decoder raises the subclass
      `FeignException.NotFound` exactly for status 404, so a catch of that
      subclass and a test `status() == 404` pick out the same faults. Timeouts
      and connection failures carry a status that is not 404. */
  datatype Fault = Fault(status: int, message: string)
  {
    predicate IsNotFound() { status == 404 }
  }

  /** The reply to a call that returns a value. */
  datatype Reply<T> = Ok(body: T) | NullBody | Raised(fault: Fault)

  /** The reply to a call declared `void`. */
  datatype Ack = Done | Refused(fault: Fault)
}
