/** Shared vocabulary of the backend: the enumerations of the Mongoose schemas,
    ids, optional values, JavaScript payload values and the array searches
    (`find`, `findIndex`, `filter`) that the handlers use. */
module Common {

  datatype Option<T> = None | Some(value: T)

  /** Role enumeration of the User schema (models/User.model.js). */
  datatype Role = ADMIN | MANAGER | MEMBER

  /** Task status enumeration, default TODO (models/Task.model.js). */
  datatype TaskStatus = TODO | IN_PROGRESS | DONE

  /** Task priority enumeration, default MEDIUM (models/Task.model.js). */
  datatype Priority = LOW | MEDIUM | HIGH

  /** Status of a user/team mapping, default INVITED (models/UserRoleTeam.model.js). */
  datatype MappingStatus = INVITED | ACCEPTED

  /** What a guard middleware does with a request: call `next()`, or end it
      with a status code and a message. */
  datatype Gate = Proceed | Halt(status: int, message: string)

  /** A handler's response: a success carrying its body, or an error status
      with its message. */
  datatype Reply<T> = Ok(value: T) | Error(status: int, message: string)

  /** JavaScript truthiness of an optional string: present and non-empty. */
  predicate Truthy(s: Option<string>)
  {
    s.Some? && s.value != ""
  }

  /** An ObjectId, in the hexadecimal string form `String(id)` gives. */
  type Id = string

  /** `req.user.id` as a JavaScript value: the authentication middleware puts
      the user document's ObjectId there; a plain string is the other case. */
  datatype ReqId = ObjectId(hex: Id) | IdText(text: string)

  /** `s === v` for a string `s`: an ObjectId is never strictly equal to a string. */
  predicate StrictEqualsId(s: string, v: ReqId)
  {
    v.IdText? && v.text == s
  }

  /** The string a role is stored and compared as. */
  function RoleName(r: Role): string
  {
    match r
    case ADMIN => "ADMIN"
    case MANAGER => "MANAGER"
    case MEMBER => "MEMBER"
  }

  /** Reads a role from a request string; None for anything outside the enumeration. */
  function ParseRole(s: string): (r: Option<Role>)
    ensures r.Some? ==> RoleName(r.value) == s
    ensures r.None? ==> forall q: Role :: RoleName(q) != s
  {
    if s == "ADMIN" then Some(ADMIN)
    else if s == "MANAGER" then Some(MANAGER)
    else if s == "MEMBER" then Some(MEMBER)
    else None
  }

  /** The string a task status is stored and compared as. */
  function StatusName(s: TaskStatus): string
  {
    match s
    case TODO => "TODO"
    case IN_PROGRESS => "IN_PROGRESS"
    case DONE => "DONE"
  }

  /** Reads a task status from a request string; None for anything outside the enumeration. */
  function ParseStatus(s: string): (r: Option<TaskStatus>)
    ensures r.Some? ==> StatusName(r.value) == s
    ensures r.None? ==> forall q: TaskStatus :: StatusName(q) != s
  {
    if s == "TODO" then Some(TODO)
    else if s == "IN_PROGRESS" then Some(IN_PROGRESS)
    else if s == "DONE" then Some(DONE)
    else None
  }

  /** The string a task priority is stored and compared as. */
  function PriorityName(p: Priority): string
  {
    match p
    case LOW => "LOW"
    case MEDIUM => "MEDIUM"
    case HIGH => "HIGH"
  }

  /** Reads a task priority from a request string; None for anything outside the enumeration. */
  function ParsePriority(s: string): (r: Option<Priority>)
    ensures r.Some? ==> PriorityName(r.value) == s
    ensures r.None? ==> forall q: Priority :: PriorityName(q) != s
  {
    if s == "LOW" then Some(LOW)
    else if s == "MEDIUM" then Some(MEDIUM)
    else if s == "HIGH" then Some(HIGH)
    else None
  }

  /** A value a client may put where an id is expected in a socket payload. */
  datatype JsVal = Undefined | Null | Str(s: string)

  /** What a template literal `${v}` makes of the value. */
  function Render(v: JsVal): string
  {
    match v
    case Undefined => "undefined"
    case Null => "null"
    case Str(s) => s
  }

  /** `Array.prototype.findIndex`: the first position whose element satisfies `p`. */
  function FindIndex<T>(s: seq<T>, p: T -> bool): (r: Option<nat>)
    ensures r.Some? ==> r.value < |s| && p(s[r.value])
    ensures r.Some? ==> forall j :: 0 <= j < r.value ==> !p(s[j])
    ensures r.None? <==> forall j :: 0 <= j < |s| ==> !p(s[j])
  {
    if |s| == 0 then None
    else if p(s[0]) then Some(0)
    else
      match FindIndex(s[1..], p)
      case None => None
      case Some(k) => Some(k + 1)
  }

  /** `Array.prototype.find`: the first element that satisfies `p`. */
  function Find<T>(s: seq<T>, p: T -> bool): (r: Option<T>)
    ensures r.Some? ==> r.value in s && p(r.value)
    ensures r.None? <==> forall j :: 0 <= j < |s| ==> !p(s[j])
  {
    match FindIndex(s, p)
    case None => None
    case Some(i) => Some(s[i])
  }

  /** `Array.prototype.filter`: the elements that satisfy `p`, in order. */
  function Filter<T>(s: seq<T>, p: T -> bool): (r: seq<T>)
    ensures |r| <= |s|
    ensures forall i :: 0 <= i < |r| ==> r[i] in s && p(r[i])
    ensures forall i :: 0 <= i < |s| && p(s[i]) ==> s[i] in r
  {
    if |s| == 0 then []
    else if p(s[0]) then [s[0]] + Filter(s[1..], p)
    else Filter(s[1..], p)
  }

  /** Filtering keeps the order of the elements: extending the input by one
      element extends the result by that element exactly when it passes. */
  lemma {:induction false} FilterAppend<T>(s: seq<T>, x: T, p: T -> bool)
    ensures Filter([], p) == []
    ensures Filter(s + [x], p) == Filter(s, p) + (if p(x) then [x] else [])
  {
    if |s| == 0 {
      assert s + [x] == [x];
    } else {
      assert (s + [x])[1..] == s[1..] + [x];
      FilterAppend(s[1..], x, p);
    }
  }

  /** Number of elements that satisfy `p` (`filter(p).length`). */
  function Count<T>(s: seq<T>, p: T -> bool): (n: nat)
    ensures n <= |s|
    ensures n == 0 <==> forall j :: 0 <= j < |s| ==> !p(s[j])
  {
    if |s| == 0 then 0
    else (if p(s[0]) then 1 else 0) + Count(s[1..], p)
  }

  /** Counting over a sequence extended by one element. */
  lemma {:induction false} CountAppend<T>(s: seq<T>, x: T, p: T -> bool)
    ensures Count(s + [x], p) == Count(s, p) + (if p(x) then 1 else 0)
  {
    if |s| > 0 {
      assert (s + [x])[1..] == s[1..] + [x];
      CountAppend(s[1..], x, p);
    }
  }

  /** The filtered sequence is as long as the count. */
  lemma {:induction false} FilterLength<T>(s: seq<T>, p: T -> bool)
    ensures |Filter(s, p)| == Count(s, p)
  {
    if |s| > 0 {
      FilterLength(s[1..], p);
    }
  }

  /** Searching the filtered sequence finds the first element satisfying both tests. */
  lemma {:induction false} FindInFilter<T>(s: seq<T>, p: T -> bool, q: T -> bool)
    ensures Find(Filter(s, p), q) == Find(s, (x: T) => p(x) && q(x))
  {
    if |s| > 0 {
      FindInFilter(s[1..], p, q);
      if p(s[0]) {
        assert Filter(s, p)[1..] == Filter(s[1..], p);
      }
    }
  }

  /** Two tests that agree on every element find the same element. */
  lemma {:induction false} FindAgrees<T>(s: seq<T>, p: T -> bool, q: T -> bool)
    requires forall i :: 0 <= i < |s| ==> p(s[i]) == q(s[i])
    ensures Find(s, p) == Find(s, q)
  {
    if |s| > 0 {
      FindAgrees(s[1..], p, q);
    }
  }

  /** `Array.prototype.slice(0, n)`. */
  function Take<T>(s: seq<T>, n: nat): (r: seq<T>)
    ensures |r| == if |s| < n then |s| else n
    ensures r == s[..|r|]
  {
    if |s| <= n then s else s[..n]
  }
}
