/** Value types shared by every part of the exam platform model. */
module Common {

  datatype Option<T> = None | Some(value: T)

  /** The outcome of an operation that may fail with an error of type E. */
  datatype Result<T, E> = Ok(value: T) | Err(error: E)

  /** A document identifier (a MongoDB ObjectId), compared by value. */
  type Id = string

  /** An instant, in milliseconds since the epoch (JavaScript's `Date.now()`). */
  type Millis = int

  /** The four account roles of the platform. */
  datatype Role = Student | Teacher | Parent | Admin

  /** A scalar JSON value from a request body; numbers are kept as integers. */
  datatype Json = Bool(b: bool) | Str(s: string) | Num(n: int) | Null

  /** The status code and `message` of a JSON reply. */
  datatype Response = Response(status: nat, message: string)

  /** A string taken from a request counts as given only when it is truthy: present and not empty. */
  predicate Truthy(v: Option<string>)
  {
    v.Some? && v.value != ""
  }

  /** No element occurs twice. */
  predicate NoDup<T(==)>(s: seq<T>)
  {
    forall i, j :: 0 <= i < j < |s| ==> s[i] != s[j]
  }

  /** The set of elements of a sequence. */
  function Elements<T>(s: seq<T>): set<T>
  {
    set x | x in s
  }

  /**
   * A sequence has at least as many positions as distinct elements, and
   * exactly as many when no element repeats.
   */
  lemma {:induction false} ElementsCardinality<T>(s: seq<T>)
    ensures |Elements(s)| <= |s|
    ensures |Elements(s)| == |s| <==> NoDup(s)
  {
    if |s| == 0 {
      assert Elements(s) == {};
    } else {
      var init, last := s[..|s| - 1], s[|s| - 1];
      assert s == init + [last];
      ElementsCardinality(init);
      assert Elements(s) == Elements(init) + {last};
      if last in init {
        assert Elements(s) == Elements(init);
        var k :| 0 <= k < |init| && init[k] == last;
        assert s[k] == s[|s| - 1];
        assert !NoDup(s);
      } else {
        assert |Elements(s)| == |Elements(init)| + 1;
        if NoDup(init) {
          forall i, j | 0 <= i < j < |s| ensures s[i] != s[j] {
            if j == |s| - 1 {
              assert s[i] == init[i];
            } else {
              assert s[i] == init[i] && s[j] == init[j];
            }
          }
        } else {
          var i, j :| 0 <= i < j < |init| && init[i] == init[j];
          assert s[i] == s[j];
        }
      }
    }
  }

  /** A subset is no larger than its superset, and a proper subset is smaller. */
  lemma {:induction false} SubsetCardinality<T>(a: set<T>, b: set<T>)
    requires a <= b
    ensures |a| <= |b|
    ensures a < b ==> |a| < |b|
    decreases |a|
  {
    if a == {} {
      if b != {} {
        var y :| y in b;
        assert |b| >= 1;
      }
    } else {
      var x :| x in a;
      SubsetCardinality(a - {x}, b - {x});
      if a < b {
        var z :| z in b && z !in a;
        assert z in b - {x} && z !in a - {x};
      }
    }
  }
}
