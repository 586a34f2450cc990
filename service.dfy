/**
 * The Raygun service component: a constructor that refuses to build without an
 * API key, an environment name and the Raygun client; `sig/start`, which in
 * the "dev" environment only loads the when.js console monitor and otherwise
 * initialises Raygun; `report`, which forwards native Errors untouched and
 * turns anything else into a "Promise rejection" record; and `sig/stop`.
 * The Raygun client is seen only through the calls made on it, kept in order
 * on the host page.
 */
module Service {
  import opened Wrappers
  import opened JsValues
  import opened Lines
  import Header
  import Normalize
  import RaygunOptions

  /** A native Error object. Only its identity matters: `report` forwards it as it is. */
  class NativeError {
    constructor ()
    {
    }
  }

  /** A JavaScript array of strings, which `shift()` changes in place. */
  class JsArray {
    var items: seq<string>

    constructor (items: seq<string>)
      ensures this.items == items
    {
      this.items := items;
    }

    /** Array.prototype.shift: removes and returns the first item, or undefined (None). */
    method Shift() returns (first: Option<string>)
      modifies this
      ensures old(items) == [] ==> first == None && items == []
      ensures old(items) != [] ==> first == Some(old(items)[0]) && items == old(items)[1..]
    {
      if items == [] {
        first := None;
      } else {
        first := Some(items[0]);
        items := items[1..];
      }
    }
  }

  /**
   * What `report` can be given, told apart as the source does: an instance of
   * Error, a string, an array (whose `shift` and `join` the source calls), or
   * any other value, which has no `shift` method.
   */
  datatype ReportInput =
    | ErrorValue(error: NativeError)
    | Text(text: string)
    | ArrayValue(lines: JsArray)
    | Other

  /** One call made on the Raygun client. */
  datatype RaygunCall =
    | Init(apiKey: JsValue, options: RaygunOptions.Options)
    | WithCustomData   // the provider passed is the service's own getData
    | Attach
    | SendError(error: NativeError)
    | SendRecord(record: Normalize.Record)
    | Detach

  /** How many of `calls` are Raygun.init. */
  function InitCount(calls: seq<RaygunCall>): (n: nat)
    ensures n <= |calls|
    ensures n == 0 <==> forall i :: 0 <= i < |calls| ==> !calls[i].Init?
  {
    if calls == [] then 0
    else (if calls[0].Init? then 1 else 0) + InitCount(calls[1..])
  }

  /** `InitCount` adds up over concatenation. */
  lemma {:induction false} InitCountAppend(a: seq<RaygunCall>, b: seq<RaygunCall>)
    ensures InitCount(a + b) == InitCount(a) + InitCount(b)
  {
    if a == [] {
      assert a + b == b;
    } else {
      assert (a + b)[1..] == a[1..] + b;
      InitCountAppend(a[1..], b);
    }
  }

  /**
   * The page the service runs in: whether `window.Raygun` and `console.error`
   * exist, the calls made on Raygun, how many times `console.error` has been
   * replaced by a wrapper, and the modules requested from the AMD loader.
   */
  class Host {
    const hasRaygun: bool
    const consoleHasError: bool
    var raygunCalls: seq<RaygunCall>
    var consoleErrorWraps: nat
    var requiredModules: seq<string>

    constructor (hasRaygun: bool, consoleHasError: bool)
      ensures this.hasRaygun == hasRaygun && this.consoleHasError == consoleHasError
      ensures raygunCalls == [] && consoleErrorWraps == 0 && requiredModules == []
    {
      this.hasRaygun := hasRaygun;
      this.consoleHasError := consoleHasError;
      raygunCalls := [];
      consoleErrorWraps := 0;
      requiredModules := [];
    }
  }

  /** The message of the Error the constructor throws. */
  const ConfigurationError: string := "Requires apikey / environment / window.Raygun"

  /** The module `sig/start` loads in the "dev" environment. */
  const ConsoleMonitor: string := "when/monitor/console"

  /** The constructor's guard: a truthy key, a string environment and the Raygun client. */
  predicate Accepts(key: JsValue, env: JsValue, hasRaygun: bool)
  {
    Truthy(key) && env.Str? && hasRaygun
  }

  /** What `sig/start` returns: the promise of the monitor load, or nothing. */
  datatype Started = AwaitingMonitor | Attached

  class RaygunService {
    const token: JsValue
    const env: string
    const options: Option<RaygunOptions.Options>
    const host: Host

    /** The constructor's guard holds of the fields, which never change. */
    predicate Valid()
    {
      Accepts(token, Str(env), host.hasRaygun)
    }

    constructor (token: JsValue, env: string, options: Option<RaygunOptions.Options>, host: Host)
      requires Accepts(token, Str(env), host.hasRaygun)
      ensures this.token == token && this.env == env && this.options == options && this.host == host
      ensures Valid()
    {
      this.token := token;
      this.env := env;
      this.options := options;
      this.host := host;
    }

    /**
     * `new Service(key, env, options)`: throws unless the key is truthy, the
     * environment is a string and the Raygun client is present; otherwise keeps
     * the three arguments unchanged. Undefined or null options are None.
     */
    static method Create(key: JsValue, env: JsValue, options: Option<RaygunOptions.Options>, host: Host)
      returns (r: Result<RaygunService>)
      ensures r.Failure? <==> !Accepts(key, env, host.hasRaygun)
      ensures r.Failure? ==> r.error == ConfigurationError
      ensures r.Success? ==> && fresh(r.value) && r.value.Valid()
                             && r.value.token == key && env == Str(r.value.env)
                             && r.value.options == options && r.value.host == host
    {
      if !(Truthy(key) && env.Str? && host.hasRaygun) {
        return Failure(ConfigurationError);
      }
      var service := new RaygunService(key, env.s, options, host);
      r := Success(service);
    }

    /**
     * `sig/start`. In "dev" it only requests the console monitor and returns
     * the promise of that load. Elsewhere it wraps `console.error` when there
     * is one, then calls Raygun.init once, with the token and the merged
     * options, and attaches with getData as the custom data provider.
     */
    method Start() returns (r: Started)
      modifies host
      ensures env == "dev" ==>
        && r == AwaitingMonitor
        && host.requiredModules == old(host.requiredModules) + [ConsoleMonitor]
        && host.raygunCalls == old(host.raygunCalls)
        && host.consoleErrorWraps == old(host.consoleErrorWraps)
      ensures env != "dev" ==>
        && r == Attached
        && host.requiredModules == old(host.requiredModules)
        && host.raygunCalls == old(host.raygunCalls)
                               + [Init(token, RaygunOptions.Merge(options)), WithCustomData, Attach]
        && host.consoleErrorWraps == old(host.consoleErrorWraps) + (if host.consoleHasError then 1 else 0)
      ensures InitCount(host.raygunCalls) == old(InitCount(host.raygunCalls)) + (if env == "dev" then 0 else 1)
    {
      if env == "dev" {
        host.requiredModules := host.requiredModules + [ConsoleMonitor];
        return AwaitingMonitor;
      }
      if host.consoleHasError {
        host.consoleErrorWraps := host.consoleErrorWraps + 1;
      }
      var merged := RaygunOptions.Merge(options);
      var calls := [Init(token, merged), WithCustomData, Attach];
      InitCountAppend(host.raygunCalls, calls);
      assert InitCount(calls) == 1 by {
        assert calls[1..] == [WithCustomData, Attach];
        assert calls[1..][1..] == [Attach];
        assert calls[1..][1..][1..] == [];
      }
      host.raygunCalls := host.raygunCalls + calls;
      r := Attached;
    }

    /** `getData`: the custom data sent with every report, empty unless an application overrides it. */
    function GetData(): (data: map<string, JsValue>)
      ensures data == map[]
    {
      map[]
    }

    /**
     * `report`. A native Error is sent as it is. A string is split into lines
     * first. An array is used as it is and loses its first item. The first
     * line, less the when.js header, is the message and the rest, joined, the
     * stack. An empty array, or a value that is neither, throws a TypeError and
     * sends nothing.
     */
    method Report(err: ReportInput) returns (r: Result<()>)
      modifies host, if err.ArrayValue? then {err.lines} else {}
      ensures err.ErrorValue? ==>
        r.Success? && host.raygunCalls == old(host.raygunCalls) + [SendError(err.error)]
      ensures err.Text? ==>
        r.Success? && host.raygunCalls == old(host.raygunCalls) + [SendRecord(Normalize.FromString(err.text))]
      ensures err.ArrayValue? ==>
        match Normalize.FromLines(old(err.lines.items))
        case Success(record) =>
          && r.Success? && host.raygunCalls == old(host.raygunCalls) + [SendRecord(record)]
          && err.lines.items == old(err.lines.items)[1..]
        case Failure(e) =>
          r == Failure(e) && host.raygunCalls == old(host.raygunCalls) && err.lines.items == []
      ensures err.Other? ==> r == Failure(Normalize.TypeError) && host.raygunCalls == old(host.raygunCalls)
      ensures host.consoleErrorWraps == old(host.consoleErrorWraps)
      ensures host.requiredModules == old(host.requiredModules)
    {
      if err.ErrorValue? {
        host.raygunCalls := host.raygunCalls + [SendError(err.error)];
        return Success(());
      }
      var lines: JsArray;
      if err.Text? {
        lines := new JsArray(Split(err.text));
      } else if err.ArrayValue? {
        lines := err.lines;
      } else {
        return Failure(Normalize.TypeError);
      }
      var first := lines.Shift();
      if first.None? {
        return Failure(Normalize.TypeError);
      }
      var title := Header.Strip(first.value);
      var stack := Join(lines.items);
      var record := Normalize.Record(Normalize.RejectionName, title, stack);
      host.raygunCalls := host.raygunCalls + [SendRecord(record)];
      r := Success(());
    }

    /** `sig/stop`: detaches Raygun. */
    method Stop()
      modifies host
      ensures host.raygunCalls == old(host.raygunCalls) + [Detach]
      ensures host.consoleErrorWraps == old(host.consoleErrorWraps)
      ensures host.requiredModules == old(host.requiredModules)
    {
      host.raygunCalls := host.raygunCalls + [Detach];
    }
  }
}
