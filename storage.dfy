/** The browser's `localStorage` as the pages use it: a string-to-string map
    behind `getItem`/`setItem`, and the three entries the pages keep in it. */
module Storage {
  import opened Seqs
  import opened JsText
  import opened Json

  const PointsKey := "greenPoints"
  const CompletedKey := "completedChallenges"
  const UsernameKey := "username"

  /** `localStorage.getItem`: the stored text, or `null` (here `None`). */
  function Get(items: map<string, string>, key: string): Option<string>
  {
    if key in items then Some(items[key]) else None
  }

  /** `if (saved)`: `null` and the empty string are falsy, every other string is truthy. */
  predicate Truthy(saved: Option<string>)
  {
    saved.Some? && saved.value != ""
  }

  class LocalStorage {
    var items: map<string, string>

    constructor (initial: map<string, string>)
      ensures items == initial
    {
      items := initial;
    }

    method GetItem(key: string) returns (saved: Option<string>)
      ensures saved.Some? <==> key in items
      ensures saved.Some? ==> saved.value == items[key]
    {
      if key in items {
        saved := Some(items[key]);
      } else {
        saved := None;
      }
    }

    method SetItem(key: string, value: string)
      modifies this
      ensures items == old(items)[key := value]
    {
      items := items[key := value];
    }
  }

  /** The pages parse the stored entries without any guard: a truthy points entry
      must read as a non-negative number and a truthy list entry as a JSON array
      of strings, or the page would hold `NaN` or throw. */
  predicate WellFormed(items: map<string, string>)
  {
    && (Truthy(Get(items, PointsKey)) ==>
          ParseInt(items[PointsKey]).Some? && ParseInt(items[PointsKey]).value >= 0)
    && (Truthy(Get(items, CompletedKey)) ==> Parse(items[CompletedKey]).Some?)
  }

  /** The points a page holds after its mount effect, when it held `current` before. */
  function LoadPoints(items: map<string, string>, current: nat): nat
    requires WellFormed(items)
  {
    if Truthy(Get(items, PointsKey)) then ParseInt(items[PointsKey]).value as nat else current
  }

  /** The completed ids a page holds after its mount effect, when it held `current` before. */
  function LoadCompleted(items: map<string, string>, current: seq<string>): seq<string>
    requires WellFormed(items)
  {
    if Truthy(Get(items, CompletedKey)) then Parse(items[CompletedKey]).value else current
  }

  /** The two `setItem` calls that follow a completion. */
  function WriteProgress(items: map<string, string>, points: nat, completed: seq<string>): map<string, string>
  {
    items[PointsKey := NumberToString(points)][CompletedKey := Stringify(completed)]
  }

  /** After the two writes, a mount reads back exactly what was written, whatever the
      page held before, and the other entries (the username) are as they were. */
  lemma LoadAfterWrite(items: map<string, string>, points: nat, completed: seq<string>,
                       heldPoints: nat, heldCompleted: seq<string>)
    ensures var w := WriteProgress(items, points, completed);
      && WellFormed(w)
      && LoadPoints(w, heldPoints) == points
      && LoadCompleted(w, heldCompleted) == completed
      && (forall k :: k != PointsKey && k != CompletedKey ==> Get(w, k) == Get(items, k))
  {
    var w := WriteProgress(items, points, completed);
    assert PointsKey != CompletedKey;
    assert w[PointsKey] == NumberToString(points) && w[CompletedKey] == Stringify(completed);
    ParseIntOfNumberToString(points);
    ParseOfStringify(completed);
    assert Stringify(completed)[0] == '[';
  }
}
