/**
 * The cluster's objects other than Apps, as the controller's install and uninstall loops
 * see them (lib/config.py:651-676): each resource is shown with `display`, its kind must be
 * a class of the client library, and replacing it, or deleting then creating it when the
 * replace fails, leaves exactly that document under its key.
 */
module Store {
  import opened Wrappers
  import opened Documents
  import opened Apps

  type Objects = map<Key, Value>

  /** The key a resource is applied under, with the failures of lines 654-655 and 672-673. */
  function Target(resource: Value, kinds: set<string>): (r: Result<Key, Err>)
    ensures r.Success? <==> Label(resource).Success? && Label(resource).value.kind in kinds
    ensures r.Success? ==> r.value == Label(resource).value
  {
    var key :- Label(resource);
    if key.kind in kinds then Success(key) else Failure(UnknownKind(key.kind))
  }

  /** The install loop from the front: apply in stored order, stop at the first failure; earlier applies stay. */
  function ApplyAll(objects: Objects, resources: seq<Value>, kinds: set<string>): (Objects, Result<(), Err>)
    decreases |resources|
  {
    if resources == [] then (objects, Success(()))
    else match Target(resources[0], kinds)
      case Failure(e) => (objects, Failure(e))
      case Success(key) => ApplyAll(objects[key := resources[0]], resources[1..], kinds)
  }

  /** The uninstall loop over an already reversed list: delete, stop at the first failure. */
  function DeleteAll(objects: Objects, resources: seq<Value>, kinds: set<string>): (Objects, Result<(), Err>)
    decreases |resources|
  {
    if resources == [] then (objects, Success(()))
    else match Target(resources[0], kinds)
      case Failure(e) => (objects, Failure(e))
      case Success(key) => DeleteAll(objects - {key}, resources[1..], kinds)
  }

  function Reverse<T>(s: seq<T>): (r: seq<T>)
    ensures |r| == |s|
    ensures forall i :: 0 <= i < |s| ==> r[i] == s[|s| - 1 - i]
  {
    if s == [] then [] else Reverse(s[1..]) + [s[0]]
  }

  /** Every resource can be applied: it has a label and a known kind. */
  predicate Applicable(resources: seq<Value>, kinds: set<string>) {
    forall i :: 0 <= i < |resources| ==> Target(resources[i], kinds).Success?
  }

  function KeyOf(resource: Value, kinds: set<string>): Key
    requires Target(resource, kinds).Success?
  {
    Target(resource, kinds).value
  }

  /** The keys of a list of applicable resources. */
  function Keys(resources: seq<Value>, kinds: set<string>): (r: set<Key>)
    requires Applicable(resources, kinds)
    ensures forall i :: 0 <= i < |resources| ==> KeyOf(resources[i], kinds) in r
    ensures forall k :: k in r ==> exists i :: 0 <= i < |resources| && KeyOf(resources[i], kinds) == k
  {
    set i | 0 <= i < |resources| :: KeyOf(resources[i], kinds)
  }

  /** A list is applicable when its head is and its tail is; its keys are the head's and the tail's. */
  lemma KeysCons(resources: seq<Value>, kinds: set<string>)
    requires resources != []
    ensures Applicable(resources, kinds) <==> Target(resources[0], kinds).Success? && Applicable(resources[1..], kinds)
    ensures Applicable(resources, kinds) ==>
            Keys(resources, kinds) == {KeyOf(resources[0], kinds)} + Keys(resources[1..], kinds)
  {
    var rest := resources[1..];
    assert forall i :: 0 <= i < |rest| ==> rest[i] == resources[i + 1];
    if Applicable(resources, kinds) {
      forall k | k in Keys(resources, kinds)
        ensures k in {KeyOf(resources[0], kinds)} + Keys(rest, kinds)
      {
        var i :| 0 <= i < |resources| && KeyOf(resources[i], kinds) == k;
        if i > 0 {
          assert KeyOf(rest[i - 1], kinds) == k;
        }
      }
    }
    if Target(resources[0], kinds).Success? && Applicable(rest, kinds) {
      forall i | 0 <= i < |resources|
        ensures Target(resources[i], kinds).Success?
      {
        if i > 0 {
          assert resources[i] == rest[i - 1];
        }
      }
    }
  }

  /** Applying succeeds exactly on applicable lists; it then writes each key and no other. */
  lemma {:induction false} ApplyAllEffect(objects: Objects, resources: seq<Value>, kinds: set<string>)
    ensures ApplyAll(objects, resources, kinds).1.Success? <==> Applicable(resources, kinds)
    ensures Applicable(resources, kinds) ==>
      var after := ApplyAll(objects, resources, kinds).0;
      after.Keys == objects.Keys + Keys(resources, kinds) &&
      (forall k :: k in objects && k !in Keys(resources, kinds) ==> after[k] == objects[k])
    decreases |resources|
  {
    if resources != [] {
      KeysCons(resources, kinds);
      if Target(resources[0], kinds).Success? {
        var key := Target(resources[0], kinds).value;
        ApplyAllEffect(objects[key := resources[0]], resources[1..], kinds);
        if Applicable(resources, kinds) {
          WrittenOver(objects, key, resources[0], Keys(resources[1..], kinds),
                      ApplyAll(objects[key := resources[0]], resources[1..], kinds).0);
        }
      }
    }
  }

  /** Writing `key` and then `keys` changes the store under `key` and `keys` only. */
  lemma WrittenOver(objects: Objects, key: Key, value: Value, keys: set<Key>, after: Objects)
    requires after.Keys == objects[key := value].Keys + keys
    requires forall k :: k in objects[key := value] && k !in keys ==> after[k] == objects[key := value][k]
    ensures after.Keys == objects.Keys + ({key} + keys)
    ensures forall k :: k in objects && k !in {key} + keys ==> after[k] == objects[k]
  {
  }

  /** Applying a nonempty applicable list applies its head, then its tail. */
  lemma ApplyAllCons(objects: Objects, resources: seq<Value>, kinds: set<string>)
    requires resources != [] && Target(resources[0], kinds).Success?
    ensures ApplyAll(objects, resources, kinds) ==
            ApplyAll(objects[KeyOf(resources[0], kinds) := resources[0]], resources[1..], kinds)
  {
  }

  /** A key that no resource of the list has keeps its object. */
  lemma {:induction false} ApplyAllKeeps(objects: Objects, resources: seq<Value>, kinds: set<string>, key: Key)
    requires Applicable(resources, kinds) && key in objects
    requires forall j :: 0 <= j < |resources| ==> KeyOf(resources[j], kinds) != key
    ensures var after := ApplyAll(objects, resources, kinds).0;
            key in after && after[key] == objects[key]
    decreases |resources|
  {
    if resources != [] {
      var rest := resources[1..];
      assert forall j :: 0 <= j < |rest| ==> rest[j] == resources[j + 1];
      ApplyAllCons(objects, resources, kinds);
      ApplyAllKeeps(objects[KeyOf(resources[0], kinds) := resources[0]], rest, kinds, key);
    }
  }

  /** A resource that no later resource shadows is left in the store exactly as listed. */
  lemma {:induction false} ApplyAllWrites(objects: Objects, resources: seq<Value>, kinds: set<string>, i: nat)
    requires Applicable(resources, kinds) && i < |resources|
    requires forall j :: i < j < |resources| ==> KeyOf(resources[j], kinds) != KeyOf(resources[i], kinds)
    ensures var after := ApplyAll(objects, resources, kinds).0;
            KeyOf(resources[i], kinds) in after && after[KeyOf(resources[i], kinds)] == resources[i]
    decreases |resources|
  {
    var rest := resources[1..];
    assert forall j :: 0 <= j < |rest| ==> rest[j] == resources[j + 1];
    ApplyAllCons(objects, resources, kinds);
    var written := objects[KeyOf(resources[0], kinds) := resources[0]];
    if i == 0 {
      ApplyAllKeeps(written, rest, kinds, KeyOf(resources[0], kinds));
    } else {
      ApplyAllWrites(written, rest, kinds, i - 1);
    }
  }

  /** Deleting succeeds exactly on applicable lists; it then removes each key and no other. */
  lemma {:induction false} DeleteAllEffect(objects: Objects, resources: seq<Value>, kinds: set<string>)
    ensures DeleteAll(objects, resources, kinds).1.Success? <==> Applicable(resources, kinds)
    ensures Applicable(resources, kinds) ==> DeleteAll(objects, resources, kinds).0 == objects - Keys(resources, kinds)
    decreases |resources|
  {
    if resources != [] {
      KeysCons(resources, kinds);
      if Target(resources[0], kinds).Success? {
        var key := Target(resources[0], kinds).value;
        DeleteAllEffect(objects - {key}, resources[1..], kinds);
        if Applicable(resources, kinds) {
          MinusTwice(objects, {key}, Keys(resources[1..], kinds));
        }
      }
    }
  }

  lemma MinusTwice(objects: Objects, first: set<Key>, second: set<Key>)
    ensures objects - first - second == objects - (first + second)
  {
  }

  /** Reversing a list neither adds nor removes an inapplicable resource or a key. */
  lemma ReverseApplicable(resources: seq<Value>, kinds: set<string>)
    ensures Applicable(Reverse(resources), kinds) <==> Applicable(resources, kinds)
    ensures Applicable(resources, kinds) ==> Keys(Reverse(resources), kinds) == Keys(resources, kinds)
  {
    var r := Reverse(resources);
    assert forall i :: 0 <= i < |r| ==> resources[i] == r[|r| - 1 - i];
    if Applicable(resources, kinds) {
      ReverseKeys(resources, kinds);
    }
  }

  lemma ReverseKeys(resources: seq<Value>, kinds: set<string>)
    requires Applicable(resources, kinds) && Applicable(Reverse(resources), kinds)
    ensures Keys(Reverse(resources), kinds) == Keys(resources, kinds)
  {
    ReverseMembers(resources);
    KeysWithin(Reverse(resources), resources, kinds);
    KeysWithin(resources, Reverse(resources), kinds);
  }

  /** A list and its reverse have the same elements. */
  lemma ReverseMembers<T>(s: seq<T>)
    ensures forall i :: 0 <= i < |s| ==> Reverse(s)[i] in s
    ensures forall i :: 0 <= i < |s| ==> s[i] in Reverse(s)
  {
    var r := Reverse(s);
    forall i | 0 <= i < |s| ensures r[i] in s && s[i] in r {
      assert r[i] == s[|s| - 1 - i] && s[i] == r[|s| - 1 - i];
    }
  }

  /** A list whose every resource is in another has no key the other lacks. */
  lemma KeysWithin(a: seq<Value>, b: seq<Value>, kinds: set<string>)
    requires Applicable(a, kinds) && Applicable(b, kinds)
    requires forall i :: 0 <= i < |a| ==> a[i] in b
    ensures Keys(a, kinds) <= Keys(b, kinds)
  {
    forall k | k in Keys(a, kinds) ensures k in Keys(b, kinds) {
      var i :| 0 <= i < |a| && KeyOf(a[i], kinds) == k;
      var j :| 0 <= j < |b| && b[j] == a[i];
      assert KeyOf(b[j], kinds) == k;
    }
  }

  /**
   * Uninstalling what was installed: applying a list and then deleting it in reverse order
   * leaves the store as it was, minus the keys of the list.
   */
  lemma InstallThenUninstall(objects: Objects, resources: seq<Value>, kinds: set<string>)
    requires Applicable(resources, kinds)
    ensures var (installed, ok) := ApplyAll(objects, resources, kinds);
            var (removed, gone) := DeleteAll(installed, Reverse(resources), kinds);
            ok.Success? && gone.Success? && removed == objects - Keys(resources, kinds)
  {
    ApplyAllEffect(objects, resources, kinds);
    ReverseApplicable(resources, kinds);
    var installed := ApplyAll(objects, resources, kinds).0;
    DeleteAllEffect(installed, Reverse(resources), kinds);
    SameOutside(objects, installed, Keys(resources, kinds));
  }

  /** Two stores that differ only under `keys` are equal once those keys are removed. */
  lemma SameOutside(objects: Objects, changed: Objects, keys: set<Key>)
    requires changed.Keys == objects.Keys + keys
    requires forall k :: k in objects && k !in keys ==> changed[k] == objects[k]
    ensures changed - keys == objects - keys
  {
  }
}
