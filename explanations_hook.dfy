/**
 * useExplanations: the dashboard's node-id to reasons map. It starts
 * empty; one load checks the response's status and content type, then
 * files every item's reasons under the string form of its node_id. Any
 * failure is only logged, so the previous map stays in place.
 */
module ExplanationsHook {
  import opened Wrappers
  import opened Text
  import opened JsValues

  /** Keyed by `String(item.node_id)`; each value stands for `{reasons: item.reasons}`. */
  type Explanations = map<string, JsValue>

  /** The `forEach` over the items, in order; a null or undefined item is a TypeError. */
  function BuildMap(items: seq<JsValue>): Result<Explanations, JsError> {
    if items == [] then Ok(map[])
    else
      var before := BuildMap(items[..|items| - 1]);
      if before.Err? then before
      else
        var item := items[|items| - 1];
        if Nullish(item) then Err(TypeError)   // `item.node_id` on null or undefined
        else Ok(before.value[ToKey(Prop(item, "node_id").value) := Prop(item, "reasons").value])
  }

  /** `data?.forEach(...)`: no data gives {}, an array is walked, anything else has no forEach. */
  function MapOf(data: JsValue): Result<Explanations, JsError> {
    if Nullish(data) then Ok(map[])
    else if data.JArray? then BuildMap(data.items)
    else Err(TypeError)
  }

  /** The `content-type` test: present, non-empty and mentioning JSON. */
  predicate JsonContent(contentType: Option<string>) {
    contentType.Some? && contentType.value != "" && Contains(contentType.value, "application/json")
  }

  /** `res.ok`: a status in the 200 to 299 range. */
  predicate StatusOk(status: int) {
    200 <= status <= 299
  }

  /** The error thrown on a status that is not OK, which names the status. */
  function NotOk(status: int): JsError {
    Failed("Backend returned " + IntToString(status))
  }

  /** One load: the map it would install, or the error it logs. */
  function Loaded(status: int, contentType: Option<string>, body: Result<JsValue, JsError>): Result<Explanations, JsError> {
    if !StatusOk(status) then Err(NotOk(status))
    else if !JsonContent(contentType) then Err(TypeError)
    else if body.Err? then Err(body.error)
    else MapOf(body.value)
  }

  /** Once a prefix of the items raises, the whole walk raises the same error. */
  lemma {:induction false} BuildErrorPersists(items: seq<JsValue>, n: nat)
    requires n <= |items| && BuildMap(items[..n]).Err?
    ensures BuildMap(items) == BuildMap(items[..n])
  {
    if n < |items| {
      var m := |items| - 1;
      assert items[..m][..n] == items[..n];
      BuildErrorPersists(items[..m], n);
    } else {
      assert items[..n] == items;
    }
  }

  /** The item walk succeeds exactly when no item is null or undefined. */
  lemma {:induction false} BuildMapFails(items: seq<JsValue>)
    ensures BuildMap(items).Ok? <==> forall i :: 0 <= i < |items| ==> !Nullish(items[i])
  {
    if items != [] {
      var m := |items| - 1;
      BuildMapFails(items[..m]);
      assert forall i :: 0 <= i < m ==> items[..m][i] == items[i];
    }
  }

  /** The key an item is filed under. */
  function KeyOfItem(item: JsValue): string
    requires !Nullish(item)
  {
    ToKey(Prop(item, "node_id").value)
  }

  /** The map holds one key per distinct item key, and nothing else. */
  lemma {:induction false} BuildMapKeys(items: seq<JsValue>)
    requires BuildMap(items).Ok?
    ensures forall i :: 0 <= i < |items| ==> !Nullish(items[i])
    ensures BuildMap(items).value.Keys == set i | 0 <= i < |items| :: KeyOfItem(items[i])
  {
    BuildMapFails(items);
    if items != [] {
      var m := |items| - 1;
      BuildMapKeys(items[..m]);
      assert forall i :: 0 <= i < m ==> items[..m][i] == items[i];
      var front := set i | 0 <= i < m :: KeyOfItem(items[..m][i]);
      var whole := set i | 0 <= i < |items| :: KeyOfItem(items[i]);
      assert whole == front + {KeyOfItem(items[m])};
    }
  }

  /** Each key holds the reasons of the LAST item filed under it. */
  lemma {:induction false} LaterDuplicateWins(items: seq<JsValue>, i: nat)
    requires BuildMap(items).Ok? && i < |items|
    requires forall j :: 0 <= j < |items| ==> !Nullish(items[j])
    requires forall j :: i < j < |items| ==> KeyOfItem(items[j]) != KeyOfItem(items[i])
    ensures KeyOfItem(items[i]) in BuildMap(items).value
    ensures BuildMap(items).value[KeyOfItem(items[i])] == Prop(items[i], "reasons").value
  {
    var m := |items| - 1;
    if i < m {
      assert items[..m][i] == items[i];
      assert forall j :: 0 <= j < m ==> items[..m][j] == items[j];
      LaterDuplicateWins(items[..m], i);
    }
  }

  /**
   * A load fails, and so leaves the map alone, on a non-OK status, on a
   * missing or non-JSON content type (status checked first), on a body
   * that does not parse, and on data that is neither null nor an array;
   * null data installs the empty map.
   */
  lemma LoadRules(status: int, contentType: Option<string>, body: Result<JsValue, JsError>)
    ensures !StatusOk(status) ==> Loaded(status, contentType, body) == Err(Failed("Backend returned " + IntToString(status)))
    ensures StatusOk(status) && !JsonContent(contentType) ==> Loaded(status, contentType, body) == Err(TypeError)
    ensures StatusOk(status) && JsonContent(contentType) && body.Ok? && Nullish(body.value) ==> Loaded(status, contentType, body) == Ok(map[])
    ensures Loaded(status, contentType, body).Ok? ==>
      StatusOk(status) && JsonContent(contentType) && body.Ok? && (Nullish(body.value) || body.value.JArray?)
  {
  }

  /** The logged message tells two failing statuses apart: it carries the status's own digits. */
  lemma NotOkNamesStatus(a: int, b: int)
    requires a != b
    ensures NotOk(a) != NotOk(b)
  {
    var prefix := "Backend returned ";
    if NotOk(a) == NotOk(b) {
      assert IntToString(a) == (prefix + IntToString(a))[|prefix|..];
      assert IntToString(b) == (prefix + IntToString(b))[|prefix|..];
      var lo := if a < b then a else b;
      var hi := if a < b then b else a;
      ParseRendered(a, lo, hi);
      ParseRendered(b, lo, hi);
    }
  }

  /** The hook's state. */
  class ExplanationsState {
    var explanations: Explanations

    /** `useState({})`. */
    constructor()
      ensures explanations == map[]
    {
      explanations := map[];
    }

    /**
     * `loadExplanations`: on success the new map replaces the old one;
     * on any failure the map is unchanged and the error is returned (it is
     * only logged).
     */
    method Load(status: int, contentType: Option<string>, body: Result<JsValue, JsError>) returns (failure: Option<JsError>)
      modifies this
      ensures Loaded(status, contentType, body).Ok? ==> explanations == Loaded(status, contentType, body).value && failure == None
      ensures Loaded(status, contentType, body).Err? ==>
        explanations == old(explanations) && failure == Some(Loaded(status, contentType, body).error)
    {
      if !StatusOk(status) {
        return Some(NotOk(status));
      }
      if !JsonContent(contentType) {
        return Some(TypeError);
      }
      if body.Err? {
        return Some(body.error);
      }
      var data := body.value;
      var built: Explanations := map[];
      if data.JArray? {
        var items := data.items;
        var n := 0;
        while n < |items|
          invariant 0 <= n <= |items|
          invariant BuildMap(items[..n]) == Ok(built)
        {
          assert items[..n + 1][..n] == items[..n];
          var item := items[n];
          if Nullish(item) {
            BuildErrorPersists(items, n + 1);
            return Some(TypeError);
          }
          built := built[ToKey(Prop(item, "node_id").value) := Prop(item, "reasons").value];
          assert BuildMap(items[..n + 1]).value == built;
          n := n + 1;
        }
        assert items[..n] == items;
      } else if !Nullish(data) {
        return Some(TypeError);
      }
      explanations := built;
      failure := None;
    }
  }
}
