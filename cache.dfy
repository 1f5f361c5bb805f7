/** One invocation of the function `createCacheDecorator` installs
    (packages/core/src/index.ts), as a value: which adapter calls it makes, in
    what order, what it returns, and what the store holds afterwards. */
module Cache {
  import opened Wrappers
  import opened Json
  import opened Keys

  /** A value as the wrapper sees it: JavaScript's `undefined`, or a defined value. */
  datatype Maybe<+V> = Undefined | Defined(value: V)

  /** The decorated method's own body: the awaited result of calling it on the arguments. */
  type Operation<V, E> = seq<Json> -> Result<Maybe<V>, E>

  /** One observable step of a wrapped call. */
  datatype Effect<V, O> =
    | Read(key: string)                               // await options.getItem(key)
    | Compute(args: seq<Json>)                        // await originalMethod.apply(this, args)
    | Write(key: string, value: Maybe<V>, options: O) // await options.setItem(key, value, decoratorArgs)

  /** The state of a map-backed adapter: its entries, and the error its reads or
      writes currently fail with, if any. */
  datatype Store<V, E> = Store(entries: map<string, Maybe<V>>, readFault: Option<E>, writeFault: Option<E>)

  /** What the entries give for a key; a key that is not there reads as `undefined`. */
  function Lookup<V>(entries: map<string, Maybe<V>>, key: string): Maybe<V>
  {
    if key in entries then entries[key] else Undefined
  }

  /** `getItem(key)` on a map-backed adapter. */
  function ReadItem<V, E>(st: Store<V, E>, key: string): (r: Result<Maybe<V>, E>)
    ensures r.Failure? <==> st.readFault.Some?
    ensures r.Failure? ==> r.error == st.readFault.value
    ensures r.Success? ==> r.value == Lookup(st.entries, key)
  {
    match st.readFault
    case Some(e) => Failure(e)
    case None => Success(Lookup(st.entries, key))
  }

  /** `setItem(key, value, options)` on a map-backed adapter: the last write wins;
      a failing write changes nothing. */
  function WriteItem<V, E>(st: Store<V, E>, key: string, value: Maybe<V>): (r: Result<Store<V, E>, E>)
    ensures r.Failure? <==> st.writeFault.Some?
    ensures r.Failure? ==> r.error == st.writeFault.value
    ensures r.Success? ==> Lookup(r.value.entries, key) == value
    ensures r.Success? ==> forall k :: k != key ==> Lookup(r.value.entries, k) == Lookup(st.entries, k)
    ensures r.Success? ==> r.value.entries.Keys == st.entries.Keys + {key}
    ensures r.Success? ==> r.value.readFault == st.readFault && r.value.writeFault == st.writeFault
  {
    match st.writeFault
    case Some(e) => Failure(e)
    case None => Success(st.(entries := st.entries[key := value]))
  }

  /** What one call of the wrapper did. */
  datatype Invocation<V, O, E> = Invocation(result: Result<Maybe<V>, E>, effects: seq<Effect<V, O>>, after: Store<V, E>)

  /** The wrapper's body on an already derived key: read; on a defined value
      return it; otherwise compute, write, and return what was computed. */
  function Invoke<V, O, E>(st: Store<V, E>, key: string, options: O, op: Operation<V, E>, args: seq<Json>)
    : (inv: Invocation<V, O, E>)
    ensures |inv.effects| >= 1 && inv.effects[0] == Read(key)
    ensures forall k :: k != key ==> Lookup(inv.after.entries, k) == Lookup(st.entries, k)
    ensures inv.after.entries.Keys <= st.entries.Keys + {key}
    ensures inv.after.readFault == st.readFault && inv.after.writeFault == st.writeFault
  {
    match ReadItem(st, key)
    case Failure(e) => Invocation(Failure(e), [Read(key)], st)
    case Success(cached) =>
      if cached.Defined? then Invocation(Success(cached), [Read(key)], st)
      else
        match op(args)
        case Failure(e) => Invocation(Failure(e), [Read(key), Compute(args)], st)
        case Success(result) =>
          match WriteItem(st, key, result)
          case Failure(e) => Invocation(Failure(e), [Read(key), Compute(args), Write(key, result, options)], st)
          case Success(st') => Invocation(Success(result), [Read(key), Compute(args), Write(key, result, options)], st')
  }

  /** The whole wrapper: derive the key (custom deriver or the default), then `Invoke`. */
  function CachedCall<V, O, E>(st: Store<V, E>, generateKey: Option<KeyDeriver>, options: O,
                               className: string, methodName: string, op: Operation<V, E>, args: seq<Json>)
    : Invocation<V, O, E>
  {
    Invoke(st, DeriveKey(generateKey, className, methodName, args), options, op, args)
  }

  /** A cache miss: the read succeeded and gave `undefined`. */
  predicate IsMiss<V, E>(st: Store<V, E>, key: string)
  {
    st.readFault.None? && Lookup(st.entries, key).Undefined?
  }

  function Computations<V, O>(effects: seq<Effect<V, O>>): (n: nat)
    ensures n <= |effects|
  {
    if |effects| == 0 then 0 else (if effects[0].Compute? then 1 else 0) + Computations(effects[1..])
  }

  function Writes<V, O>(effects: seq<Effect<V, O>>): (n: nat)
    ensures n <= |effects|
  {
    if |effects| == 0 then 0 else (if effects[0].Write? then 1 else 0) + Writes(effects[1..])
  }

  function Reads<V, O>(effects: seq<Effect<V, O>>): (n: nat)
    ensures n <= |effects|
  {
    if |effects| == 0 then 0 else (if effects[0].Read? then 1 else 0) + Reads(effects[1..])
  }

  // ---------------------------------------------------------------------------
  // Hit, miss and the three failures

  /** A read failure is returned unchanged; nothing is computed or written. */
  lemma ReadFailurePropagates<V, O, E>(st: Store<V, E>, key: string, options: O, op: Operation<V, E>, args: seq<Json>)
    requires st.readFault.Some?
    ensures var inv := Invoke(st, key, options, op, args);
            inv.result == Failure(st.readFault.value) && inv.effects == [Read(key)] && inv.after == st
  {
  }

  /** A hit returns the stored value without calling the operation or `setItem`. */
  lemma HitReturnsCachedValue<V, O, E>(st: Store<V, E>, key: string, options: O, op: Operation<V, E>, args: seq<Json>)
    requires st.readFault.None? && Lookup(st.entries, key).Defined?
    ensures var inv := Invoke(st, key, options, op, args);
            inv.result == Success(Lookup(st.entries, key)) && inv.effects == [Read(key)] && inv.after == st
  {
  }

  /** A miss calls the operation once with the call's own arguments, then writes
      its result under the same key with the decorator's options, then returns it. */
  lemma MissComputesWritesReturns<V, O, E>(st: Store<V, E>, key: string, options: O, op: Operation<V, E>, args: seq<Json>)
    requires IsMiss(st, key) && op(args).Success? && st.writeFault.None?
    ensures var inv := Invoke(st, key, options, op, args);
            && inv.result == op(args)
            && inv.effects == [Read(key), Compute(args), Write(key, op(args).value, options)]
            && inv.after == st.(entries := st.entries[key := op(args).value])
  {
  }

  /** A failing operation is returned unchanged and nothing is written: failures are never cached. */
  lemma ComputeFailureIsNotCached<V, O, E>(st: Store<V, E>, key: string, options: O, op: Operation<V, E>, args: seq<Json>)
    requires IsMiss(st, key) && op(args).Failure?
    ensures var inv := Invoke(st, key, options, op, args);
            inv.result == op(args) && inv.effects == [Read(key), Compute(args)] && inv.after == st
  {
  }

  /** A failing write is returned instead of the value that was computed. */
  lemma WriteFailurePropagates<V, O, E>(st: Store<V, E>, key: string, options: O, op: Operation<V, E>, args: seq<Json>)
    requires IsMiss(st, key) && op(args).Success? && st.writeFault.Some?
    ensures var inv := Invoke(st, key, options, op, args);
            && inv.result == Failure(st.writeFault.value)
            && inv.effects == [Read(key), Compute(args), Write(key, op(args).value, options)]
            && inv.after == st
  {
  }

  /** Exactly one read per call; the operation runs once exactly on a miss and
      never otherwise; one write exactly when a miss computed successfully. */
  lemma StepCounts<V, O, E>(st: Store<V, E>, key: string, options: O, op: Operation<V, E>, args: seq<Json>)
    ensures var inv := Invoke(st, key, options, op, args);
            && Reads(inv.effects) == 1
            && Computations(inv.effects) == (if IsMiss(st, key) then 1 else 0)
            && Writes(inv.effects) == (if IsMiss(st, key) && op(args).Success? then 1 else 0)
  {
    var inv := Invoke(st, key, options, op, args);
    var e := inv.effects;
    if |e| == 3 {
      assert e[0].Read? && e[1].Compute? && e[2].Write?;
      assert e[1..][1..] == [e[2]] && e[1..][1..][1..] == [];
      assert Reads(e[1..][1..]) == 0 && Computations(e[1..][1..]) == 0 && Writes(e[1..][1..]) == 1;
      assert Reads(e[1..]) == 0 && Computations(e[1..]) == 1 && Writes(e[1..]) == 1;
    } else if |e| == 2 {
      assert e[0].Read? && e[1].Compute?;
      assert e[1..] == [e[1]] && e[1..][1..] == [];
    } else {
      assert e[1..] == [];
    }
  }

  /** Every write is of the computed value, under the call's key, with the
      decorator's options, and it is the last step. */
  lemma WriteIsLastAndOfComputedValue<V, O, E>(st: Store<V, E>, key: string, options: O, op: Operation<V, E>,
                                               args: seq<Json>, i: nat)
    requires var inv := Invoke(st, key, options, op, args); i < |inv.effects| && inv.effects[i].Write?
    ensures var inv := Invoke(st, key, options, op, args);
            && i == |inv.effects| - 1 && i > 0 && inv.effects[i - 1] == Compute(args)
            && op(args).Success?
            && inv.effects[i] == Write(key, op(args).value, options)
  {
  }

  // ---------------------------------------------------------------------------
  // Consecutive calls

  /** After a call that returned a defined value (a hit, or a miss whose write
      succeeded), the next call with the same key is a hit returning that value,
      whatever the operation would now compute. */
  lemma DefinedResultThenHit<V, O, E>(st: Store<V, E>, key: string, options: O, op: Operation<V, E>, args: seq<Json>,
                             op': Operation<V, E>)
    requires var inv := Invoke(st, key, options, op, args); inv.result.Success? && inv.result.value.Defined?
    ensures var inv := Invoke(st, key, options, op, args);
            var next := Invoke(inv.after, key, options, op', args);
            next.result == inv.result && next.effects == [Read(key)] && next.after == inv.after
  {
  }

  /** A stored `undefined` reads as a miss: the next call with the same key runs
      the operation again. */
  lemma UndefinedIsRecomputed<V, O, E>(st: Store<V, E>, key: string, options: O, op: Operation<V, E>, args: seq<Json>)
    requires IsMiss(st, key) && op(args) == Success(Undefined)
    ensures var inv := Invoke(st, key, options, op, args);
            var next := Invoke(inv.after, key, options, op, args);
            IsMiss(inv.after, key) && Computations(next.effects) == 1
  {
    var inv := Invoke(st, key, options, op, args);
    StepCounts(inv.after, key, options, op, args);
  }

  /** Once the backend no longer holds the key (expiry, eviction), the next call
      runs the operation again and, if it succeeds, overwrites the entry. */
  lemma EvictionRecomputes<V, O, E>(st: Store<V, E>, key: string, options: O, op: Operation<V, E>, args: seq<Json>)
    requires st.readFault.None?
    ensures var evicted := st.(entries := st.entries - {key});
            var inv := Invoke(evicted, key, options, op, args);
            && Computations(inv.effects) == 1
            && (op(args).Success? && st.writeFault.None? ==> Lookup(inv.after.entries, key) == op(args).value)
  {
    var evicted := st.(entries := st.entries - {key});
    StepCounts(evicted, key, options, op, args);
  }

  /** The first call on an empty backend runs the operation once and leaves exactly
      one entry, under the derived key. */
  lemma ColdStart<V, O, E>(key: string, options: O, op: Operation<V, E>, args: seq<Json>)
    requires op(args).Success?
    ensures var inv := Invoke(Store(map[], None, None), key, options, op, args);
            inv.result == op(args) && Computations(inv.effects) == 1 && inv.after.entries == map[key := op(args).value]
  {
    StepCounts(Store(map[], None, None), key, options, op, args);
  }

  // ---------------------------------------------------------------------------
  // Key derivation inside the wrapper

  /** With a custom `generateKey`, its output is the key of the read and of the write. */
  lemma CustomKeyIsUsed<V, O, E>(st: Store<V, E>, g: KeyDeriver, options: O, className: string, methodName: string,
                                 op: Operation<V, E>, args: seq<Json>, i: nat)
    requires i < |CachedCall(st, Some(g), options, className, methodName, op, args).effects|
    ensures var e := CachedCall(st, Some(g), options, className, methodName, op, args).effects[i];
            (e.Read? || e.Write?) ==> e.key == g(className, methodName, args)
  {
  }

  /** Without one, the key is `className#methodName(JSON.stringify(args))`. */
  lemma DefaultKeyIsUsed<V, O, E>(st: Store<V, E>, options: O, className: string, methodName: string,
                                  op: Operation<V, E>, args: seq<Json>)
    ensures CachedCall(st, None, options, className, methodName, op, args).effects[0]
            == Read(className + "#" + methodName + "(" + Serialize(JArray(args)) + ")")
  {
  }

  /** Calls of different methods, or with different arguments, of the same class
      touch different entries: one leaves the other's entry as it was. */
  lemma DefaultKeysIsolateCalls<V, O, E>(st: Store<V, E>, options: O, className: string,
                                         m1: string, op1: Operation<V, E>, a1: seq<Json>,
                                         m2: string, a2: seq<Json>)
    requires '(' !in m1 && '(' !in m2
    requires m1 != m2 || a1 != a2
    ensures var inv := CachedCall(st, None, options, className, m1, op1, a1);
            Lookup(inv.after.entries, DefaultKey(className, m2, a2)) == Lookup(st.entries, DefaultKey(className, m2, a2))
  {
    if DefaultKey(className, m1, a1) == DefaultKey(className, m2, a2) {
      SameClassKeyInjective(className, m1, a1, m2, a2);
    }
  }
}
