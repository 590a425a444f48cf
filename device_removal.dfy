/**
 * The decision whether a device-registry entry may be detached from a HomeKit config entry:
 * only when none of its identifiers is one the connection still reports for an accessory.
 */
module DeviceRemoval {

  /** A device-registry identifier, a (domain, id) pair. */
  type Identifier = (string, string)

  /**
   * The identifiers of `device` that also occur among the identifier sets of the accessories,
   * gathered accessory by accessory as the generator expression walks the entity map.
   */
  function SharedIdentifiers(device: set<Identifier>, accessories: seq<set<Identifier>>): (shared: set<Identifier>)
    ensures shared <= device
    ensures forall x :: x in shared <==> x in device && exists i :: 0 <= i < |accessories| && x in accessories[i]
  {
    if accessories == [] then {}
    else
      var rest := SharedIdentifiers(device, accessories[1..]);
      assert forall x :: x in rest ==> exists i :: 0 <= i < |accessories| && x in accessories[i] by {
        forall x | x in rest ensures exists i :: 0 <= i < |accessories| && x in accessories[i] {
          var j :| 0 <= j < |accessories[1..]| && x in accessories[1..][j];
          assert x in accessories[j + 1];
        }
      }
      (device * accessories[0]) + rest
  }

  /** `not device.identifiers.intersection(...)`: removal is allowed when nothing is shared. */
  function CanRemoveDevice(device: set<Identifier>, accessories: seq<set<Identifier>>): (allowed: bool)
    ensures allowed <==> forall i :: 0 <= i < |accessories| ==> device !! accessories[i]
  {
    var shared := SharedIdentifiers(device, accessories);
    assert forall i, x :: 0 <= i < |accessories| && x in device && x in accessories[i] ==> x in shared;
    shared == {}
  }
}
