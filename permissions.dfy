/** IsOwner (e_commerce/permissions.py): an object-level permission that
    lets a request through only when the object belongs to its user. */
module Permissions {
  import opened Models

  /** The part of a request the permission reads: the authenticated user. */
  datatype Request = Request(user: UserId)

  /** IsOwner.has_object_permission. The view, of any type, plays no part;
      being a function, the check changes neither the request nor the object
      and gives the same answer for the same owner and user. */
  function HasObjectPermission<V>(request: Request, view: V, obj: Order): (granted: bool)
  {
    obj.owner == request.user
  }

  /** Of all users, exactly the owner is admitted: the owner always is, and
      two users admitted to the same object are the same user. */
  lemma OnlyOwnerGranted<V>(view: V, obj: Order, u: UserId, v: UserId)
    ensures HasObjectPermission(Request(obj.owner), view, obj)
    ensures HasObjectPermission(Request(u), view, obj) && HasObjectPermission(Request(v), view, obj) ==> u == v
  {
  }

  /** The decision is the same whichever view asks. */
  lemma PermissionIgnoresView<V>(request: Request, v1: V, v2: V, obj: Order)
    ensures HasObjectPermission(request, v1, obj) == HasObjectPermission(request, v2, obj)
  {
  }
}
