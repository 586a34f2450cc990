/**
 * The options handed to Raygun.init: `_.extend(defaults, this.options)`, the
 * caller's own properties copied over a fixed set of defaults.
 */
module RaygunOptions {
  import opened Wrappers
  import opened JsValues

  /** An options object by its own enumerable properties. */
  type Options = map<string, JsValue>

  /**
   * The defaults. The source writes the second hostname as the string literal
   * '\.dev', in which `\.` is a redundant escape, so its value is ".dev".
   */
  function Defaults(): (d: Options)
    ensures d.Keys == {"allowInsecureSubmissions", "ignoreAjaxAbort", "ignoreAjaxError",
                       "ignore3rdPartyErrors", "excludedHostnames"}
    ensures forall k :: k in d ==> (d[k].Boolean? <==> k != "excludedHostnames")
    ensures Truthy(d["allowInsecureSubmissions"]) && Truthy(d["ignore3rdPartyErrors"])
    ensures !Truthy(d["ignoreAjaxAbort"]) && !Truthy(d["ignoreAjaxError"])
    ensures d["excludedHostnames"] == Array([Str("localhost"), Str(".dev")])
  {
    map[
      "allowInsecureSubmissions" := Boolean(true),
      "ignoreAjaxAbort" := Boolean(false),
      "ignoreAjaxError" := Boolean(false),
      "ignore3rdPartyErrors" := Boolean(true),
      "excludedHostnames" := Array([Str("localhost"), Str(".dev")])
    ]
  }

  /**
   * `_.extend(defaults, options)`: every property of the caller's object is
   * written over the defaults. Undefined or null options (None) copy nothing.
   * Key by key: a key the caller gives takes the caller's value, any other
   * default keeps its default, and no other key appears.
   */
  function Merge(options: Option<Options>): (merged: Options)
    ensures merged.Keys == Defaults().Keys + (if options.Some? then options.value.Keys else {})
    ensures forall k :: options.Some? && k in options.value ==> k in merged && merged[k] == options.value[k]
    ensures forall k :: k in Defaults() && (options.None? || k !in options.value) ==> merged[k] == Defaults()[k]
  {
    match options
    case None => Defaults()
    case Some(own) => Defaults() + own
  }

  /** Without options the result is exactly the defaults, as it is with an empty object. */
  lemma MergeWithoutOptions()
    ensures Merge(None) == Defaults()
    ensures Merge(Some(map[])) == Defaults()
  {
  }

  /** Merging is idempotent: passing the merged options again changes nothing. */
  lemma MergeIdempotent(options: Option<Options>)
    ensures Merge(Some(Merge(options))) == Merge(options)
  {
  }
}
