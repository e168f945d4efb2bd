/** The object-level permission classes (permissions.py) and the framework's
    IsAuthenticated / AllowAny they are combined with. A caller is the
    authenticated user's id, or None for an anonymous request. */
module Permissions {
  import opened Common

  datatype HttpMethod = GET | HEAD | OPTIONS | POST | PUT | PATCH | DELETE

  /** The REST framework's SAFE_METHODS. */
  predicate IsSafeMethod(m: HttpMethod) {
    m == GET || m == HEAD || m == OPTIONS
  }

  /** str() of a user id; an anonymous request's user has id None, which renders as "None". */
  function IdText(id: Option<UserId>): string {
    match id
    case Some(u) => if u < 0 then "-" + DecimalString(-u) else DecimalString(u)
    case None => "None"
  }

  /** A rendered id starts with a minus sign exactly when it is negative, and otherwise with a digit. */
  lemma IdTextStart(u: UserId)
    ensures |IdText(Some(u))| > 0
    ensures IdText(Some(u))[0] == '-' <==> u < 0
    ensures u >= 0 ==> IsDigitChar(IdText(Some(u))[0])
  {
    var d := DecimalString(if u < 0 then -u else u);
    assert IsDigitChar(d[0]);
  }

  /** Distinct ids, or an id and None, render differently. */
  lemma IdTextDiffers(a: Option<UserId>, b: Option<UserId>)
    requires a != b
    ensures IdText(a) != IdText(b)
  {
    match (a, b)
    case (Some(x), Some(y)) =>
      IdTextStart(x);
      IdTextStart(y);
      if x < 0 && y < 0 {
        DecimalStringInjective(-x, -y);
        assert IdText(a)[1..] == DecimalString(-x);
        assert IdText(b)[1..] == DecimalString(-y);
      } else if x >= 0 && y >= 0 {
        DecimalStringInjective(x, y);
      }
    case (Some(x), None) =>
      IdTextStart(x);
    case (None, Some(y)) =>
      IdTextStart(y);
  }

  /** Comparing ids as strings is comparing the ids. */
  lemma IdTextInjective(a: Option<UserId>, b: Option<UserId>)
    ensures IdText(a) == IdText(b) <==> a == b
  {
    if a != b {
      IdTextDiffers(a, b);
    }
  }

  /** IsUserOrReadOnly.has_object_permission for a User object (permissions.py:9-14):
      reads always, writes only on the caller's own record. */
  function IsUserOrReadOnly(m: HttpMethod, objectId: UserId, caller: Option<UserId>): (r: bool)
    ensures IsSafeMethod(m) ==> r
    ensures !IsSafeMethod(m) ==> (r <==> caller == Some(objectId))
  {
    if IsSafeMethod(m) then true
    else
      IdTextInjective(Some(objectId), caller);
      IdText(Some(objectId)) == IdText(caller)
  }

  /** IsOwnerOrReadOnly.has_object_permission for an object with an owner (permissions.py:21-24):
      reads always, writes only by the owner. */
  function IsOwnerOrReadOnly(m: HttpMethod, owner: UserId, caller: Option<UserId>): (r: bool)
    ensures IsSafeMethod(m) ==> r
    ensures !IsSafeMethod(m) ==> (r <==> caller == Some(owner))
  {
    if IsSafeMethod(m) then true
    else
      IdTextInjective(Some(owner), caller);
      IdText(Some(owner)) == IdText(caller)
  }

  /** The framework's IsAuthenticated. */
  predicate IsAuthenticated(caller: Option<UserId>) {
    caller.Some?
  }
}
