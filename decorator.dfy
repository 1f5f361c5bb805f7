/** `createCacheDecorator` and the wrapper it installs (packages/core/src/index.ts),
    with the decorator machinery replaced by explicit objects: a map-backed adapter,
    a factory bound to it, and one cached method per decorated method. */
module Decorator {
  import opened Wrappers
  import opened Json
  import opened Keys
  import opened Cache

  /** An adapter whose entries live in a map: the `getItem`/`setItem` pair a caller
      passes to `createCacheDecorator`. Its reads and writes fail while the
      corresponding fault is set. */
  class MapAdapter<V, E> {
    var entries: map<string, Maybe<V>>
    var readFault: Option<E>
    var writeFault: Option<E>

    function State(): Store<V, E>
      reads this
    {
      Store(entries, readFault, writeFault)
    }

    constructor ()
      ensures State() == Store(map[], None, None)
    {
      entries := map[];
      readFault := None;
      writeFault := None;
    }

    /** `getItem(key)`: the stored value, or `undefined` for a key that is not there. */
    method GetItem(key: string) returns (r: Result<Maybe<V>, E>)
      ensures r == ReadItem(State(), key)
    {
      if readFault.Some? {
        r := Failure(readFault.value);
      } else if key in entries {
        r := Success(entries[key]);
      } else {
        r := Success(Undefined);
      }
    }

    /** `setItem(key, value, options)`: overwrites the entry; the options are the
        backend's own business (a time to live) and are not interpreted here. */
    method SetItem<O>(key: string, value: Maybe<V>, options: O) returns (r: Outcome<E>)
      modifies this
      ensures match WriteItem(old(State()), key, value)
              case Success(st) => r == Pass && State() == st
              case Failure(e) => r == Fail(e) && State() == old(State())
    {
      if writeFault.Some? {
        r := Fail(writeFault.value);
      } else {
        entries := entries[key := value];
        r := Pass;
      }
    }
  }

  /** `createCacheDecorator(options)`: the adapter and the optional `generateKey`,
      bound once and shared by every method it decorates. */
  class CacheDecorator<V, O, E> {
    const adapter: MapAdapter<V, E>
    const generateKey: Option<KeyDeriver>

    constructor (adapter: MapAdapter<V, E>, generateKey: Option<KeyDeriver>)
      ensures this.adapter == adapter && this.generateKey == generateKey
    {
      this.adapter := adapter;
      this.generateKey := generateKey;
    }

    /** `cacheDecorator(decoratorArgs)` applied to the method named `methodName`
        whose original body is `original`. */
    method Decorate(decoratorArgs: O, methodName: string, original: Operation<V, E>)
      returns (m: CachedMethod<V, O, E>)
      ensures fresh(m)
      ensures m.adapter == adapter && m.generateKey == generateKey
      ensures m.decoratorArgs == decoratorArgs && m.methodName == methodName && m.original == original
    {
      m := new CachedMethod(adapter, generateKey, decoratorArgs, methodName, original);
    }
  }

  /** The replaced `descriptor.value`: the decorated method with caching in front of it. */
  class CachedMethod<V, O, E> {
    const adapter: MapAdapter<V, E>
    const generateKey: Option<KeyDeriver>
    const decoratorArgs: O
    const methodName: string
    const original: Operation<V, E>

    constructor (adapter: MapAdapter<V, E>, generateKey: Option<KeyDeriver>, decoratorArgs: O,
                 methodName: string, original: Operation<V, E>)
      ensures this.adapter == adapter && this.generateKey == generateKey
      ensures this.decoratorArgs == decoratorArgs && this.methodName == methodName && this.original == original
    {
      this.adapter := adapter;
      this.generateKey := generateKey;
      this.decoratorArgs := decoratorArgs;
      this.methodName := methodName;
      this.original := original;
    }

    /** One call of the decorated method on a receiver of class `className`.
        `effects` lists the adapter calls and the call of the original body, in order. */
    method Call(className: string, args: seq<Json>) returns (result: Result<Maybe<V>, E>, effects: seq<Effect<V, O>>)
      modifies adapter
      ensures var inv := CachedCall(old(adapter.State()), generateKey, decoratorArgs, className, methodName, original, args);
              result == inv.result && effects == inv.effects && adapter.State() == inv.after
    {
      var key := DeriveKey(generateKey, className, methodName, args);
      var cached := adapter.GetItem(key);
      effects := [Read(key)];
      if cached.Failure? {
        result := Failure(cached.error);
        return;
      }
      if cached.value.Defined? {
        result := cached;
        return;
      }
      var computed := original(args);
      effects := effects + [Compute(args)];
      if computed.Failure? {
        result := computed;
        return;
      }
      var written := adapter.SetItem(key, computed.value, decoratorArgs);
      effects := effects + [Write(key, computed.value, decoratorArgs)];
      if written.Fail? {
        result := Failure(written.error);
        return;
      }
      result := computed;
    }
  }
}
