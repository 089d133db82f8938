/** The small path and collection helpers of the C# extension's `common` module. */
module Common {
  import opened Wrappers
  import opened JsString
  import opened JsValue

  /** The module-level extension path: unset (undefined) until `setExtensionPath` runs. */
  class ExtensionPath {
    var path: Value

    constructor ()
      ensures path == Undefined
    {
      path := Undefined;
    }

    method Set(p: Value)
      modifies this
      ensures path == p
    {
      path := p;
    }

    /** `getExtensionPath`: throws until a truthy path has been set. */
    method Get() returns (r: Result<Value, String>)
      ensures r.Ok? <==> Truthy(path)
      ensures r.Ok? ==> r.value == path
      ensures r.Err? ==> r.error == "Failed to set extension path"
    {
      if !Truthy(path) {
        return Err("Failed to set extension path");
      }
      return Ok(path);
    }
  }

  /** `isBoolean(obj)`: strict comparison with `true` and with `false`. */
  function IsBoolean(v: Value): (r: bool)
    ensures r <==> v.Bool?
  {
    v == Bool(true) || v == Bool(false)
  }

  /** `arr.reduce((prev, curr) => prev + selector(curr), acc)`, left to right. */
  function Reduce<T>(acc: int, arr: seq<T>, selector: T -> int): int
    decreases |arr|
  {
    if arr == [] then acc else Reduce(acc + selector(arr[0]), arr[1..], selector)
  }

  /** `sum(arr, selector)`. */
  function Sum<T>(arr: seq<T>, selector: T -> int): int
  {
    Reduce(0, arr, selector)
  }

  lemma {:induction false} ReduceShift<T>(acc: int, arr: seq<T>, selector: T -> int)
    ensures Reduce(acc, arr, selector) == acc + Sum(arr, selector)
    decreases |arr|
  {
    if arr != [] {
      ReduceShift(acc + selector(arr[0]), arr[1..], selector);
      ReduceShift(selector(arr[0]), arr[1..], selector);
    }
  }

  /** The sum of an empty array is 0 and the sum is additive over concatenation. */
  lemma {:induction false} SumConcat<T>(a: seq<T>, b: seq<T>, selector: T -> int)
    ensures Sum([], selector) == 0
    ensures Sum(a + b, selector) == Sum(a, selector) + Sum(b, selector)
  {
    if a == [] {
      assert a + b == b;
    } else {
      assert (a + b)[1..] == a[1..] + b;
      ReduceShift(selector(a[0]), a[1..] + b, selector);
      ReduceShift(selector(a[0]), a[1..], selector);
      SumConcat(a[1..], b, selector);
    }
  }

  /** `safeLength(arr)`: the length of an array, 0 for `undefined`. */
  function SafeLength<T>(arr: Option<seq<T>>): (r: nat)
    ensures arr.None? ==> r == 0
    ensures arr.Some? ==> r == Sum(arr.value, (_: T) => 1)
  {
    match arr
    case None => 0
    case Some(a) => CountIsLength(a); |a|
  }

  lemma {:induction false} CountIsLength<T>(a: seq<T>)
    ensures Sum(a, (_: T) => 1) == |a|
  {
    if a != [] {
      CountIsLength(a[1..]);
      ReduceShift(1, a[1..], (_: T) => 1);
    }
  }

  /** `convertNativePathToPosix`: split on the native separator, join with `/`. */
  function ConvertNativePathToPosix(p: String, sep: String): (r: String)
    requires |sep| > 0
    // with a one-character separator every separator becomes `/` and nothing else changes
    ensures |sep| == 1 ==> |r| == |p| && forall k :: 0 <= k < |p| ==> r[k] == (if p[k] == sep[0] then '/' else p[k])
  {
    if |sep| == 1 then
      ReplaceCharwise(p, sep[0], '/');
      assert [sep[0]] == sep;
      Join(Split(p, sep), "/")
    else
      Join(Split(p, sep), "/")
  }

  /** `isSubfolderOf(subfolder, folder)`. */
  function IsSubfolderOf(subfolder: String, folder: String, sep: String): (r: bool)
    requires |sep| > 0
    ensures r <==> Split(subfolder, sep) <= Split(folder, sep)
  {
    var a, b := Split(subfolder, sep), Split(folder, sep);
    |a| <= |b| && forall i :: 0 <= i < |a| ==> b[i] == a[i]
  }

  /** A path is a sub folder of itself and of every path that extends it by further components. */
  lemma SubfolderOfExtension(a: String, x: String, sep: char)
    ensures IsSubfolderOf(a, a, [sep])
    ensures IsSubfolderOf(a, a + [sep] + x, [sep])
  {
    SplitAppend(a, x, sep);
  }
}
