/**
 * The static permission table (src/security/permissions.ts): for each
 * permission, the roles that hold it and, for the user permissions, the
 * storage destinations it opens.
 */
module Permissions {
  import opened Wrappers
  import UserModel

  const Admin := UserModel.Admin
  const Guest := UserModel.Guest

  /** The key of the user-avatar entry of the storage table (src/security/storage.ts is not part of this model). */
  const UserAvatar := "userAvatar"

  /** An entry of `values`; `allowedStorage` is absent from most. */
  datatype Permission = Permission(id: string, allowedRoles: seq<string>, allowedStorage: Option<seq<string>>)

  /** The keys of `values`, in declaration order. */
  const Keys: seq<string> := [
    "userCreate", "userEdit", "userRead", "userDestroy", "userAutocomplete",
    "reservationCreate", "reservationEdit", "reservationRead", "reservationDestroy", "reservationAutocomplete",
    "consumptionCreate", "consumptionEdit", "consumptionRead", "consumptionDestroy", "consumptionAutocomplete",
    "paymentCreate", "paymentEdit", "paymentRead", "paymentDestroy"]

  /** `Permissions.values`. */
  function Values(): map<string, Permission> {
    map[
      "userCreate" := Permission("userCreate", [Admin], Some([UserAvatar])),
      "userEdit" := Permission("userEdit", [Admin], Some([UserAvatar])),
      "userRead" := Permission("userRead", [Admin], None),
      "userDestroy" := Permission("userDestroy", [Admin], Some([UserAvatar])),
      "userAutocomplete" := Permission("userAutocomplete", [Admin], None),
      "reservationCreate" := Permission("reservationCreate", [Admin, Guest], None),
      "reservationEdit" := Permission("reservationEdit", [Admin, Guest], None),
      "reservationRead" := Permission("reservationRead", [Admin, Guest], None),
      "reservationDestroy" := Permission("reservationDestroy", [Admin], None),
      "reservationAutocomplete" := Permission("reservationAutocomplete", [Admin, Guest], None),
      "consumptionCreate" := Permission("consumptionCreate", [Admin], None),
      "consumptionEdit" := Permission("consumptionEdit", [Admin], None),
      "consumptionRead" := Permission("consumptionRead", [Admin, Guest], None),
      "consumptionDestroy" := Permission("consumptionDestroy", [Admin], None),
      "consumptionAutocomplete" := Permission("consumptionAutocomplete", [Admin, Guest], None),
      "paymentCreate" := Permission("paymentCreate", [Admin, Guest], None),
      "paymentEdit" := Permission("paymentEdit", [Admin, Guest], None),
      "paymentRead" := Permission("paymentRead", [Admin, Guest], None),
      "paymentDestroy" := Permission("paymentDestroy", [Admin, Guest], None)
    ]
  }

  /** The table's keys are exactly the declared ones, each once, and every entry's id is its key. */
  lemma TableIsKeyedById()
    ensures |Keys| == 19
    ensures forall i, j :: 0 <= i < j < |Keys| ==> Keys[i] != Keys[j]
    ensures forall k :: k in Values() <==> k in Keys
    ensures forall k :: k in Values() ==> Values()[k].id == k
  {
  }

  /** `asArray`: the entries, in the declaration order of their keys. */
  function AsArray(): (all: seq<Permission>)
    ensures |all| == |Keys|
    ensures forall i :: 0 <= i < |all| ==> all[i].id == Keys[i] && all[i] == Values()[Keys[i]]
  {
    TableIsKeyedById();
    seq(|Keys|, i requires 0 <= i < |Keys| => Values()[Keys[i]])
  }

  /** Admin holds every permission. */
  lemma AdminHoldsEveryPermission()
    ensures forall k :: k in Values() ==> Admin in Values()[k].allowedRoles
  {
  }

  /** The permissions a guest holds: reservations but destroy, consumptions read and autocomplete, all of payments. */
  const GuestKeys: seq<string> := [
    "reservationCreate", "reservationEdit", "reservationRead", "reservationAutocomplete",
    "consumptionRead", "consumptionAutocomplete",
    "paymentCreate", "paymentEdit", "paymentRead", "paymentDestroy"]

  /** A guest holds exactly the guest permissions: none on users, no reservation destroy, no consumption writes. */
  lemma GuestHoldsExactlyGuestKeys()
    ensures forall k :: k in Values() ==> (Guest in Values()[k].allowedRoles <==> k in GuestKeys)
  {
  }

  /** Only userCreate, userEdit and userDestroy open a storage destination, each the user avatar alone. */
  lemma OnlyUserWritesOpenStorage()
    ensures forall k :: k in Values() ==>
      (Values()[k].allowedStorage.Some? <==> k == "userCreate" || k == "userEdit" || k == "userDestroy")
    ensures forall k :: k in Values() && Values()[k].allowedStorage.Some? ==> Values()[k].allowedStorage.value == [UserAvatar]
  {
  }
}
