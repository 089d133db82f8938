/**
 * The SFTP package's `ExcepthookChain` (`SFTP.py`): a list of uncaught-exception
 * callbacks shared by every Sublime Text package that installs one, and the
 * map from each registration name to its callback. `sys.excepthook` is kept at
 * the end of the list; every other callback is put at the front.
 *
 * The class attributes become the fields of one object. Callbacks are values
 * of a type with equality, as Python's `list.remove` compares them by `==`.
 */
module ExcepthookChain {
  import opened Wrappers

  /** The registration name of the interpreter's own hook. */
  const SysExcepthook: string := "sys.excepthook"

  /** `list.remove(x)`: the list without the first element equal to `x`. */
  function RemoveFirst<C(==)>(s: seq<C>, x: C): (r: seq<C>)
    ensures x in s ==> |r| == |s| - 1 && multiset(r) == multiset(s) - multiset{x}
    ensures x !in s ==> r == s
  {
    if s == [] then []
    else
      assert s == [s[0]] + s[1..];
      if s[0] == x then s[1..] else [s[0]] + RemoveFirst(s[1..], x)
  }

  predicate Distinct<C(==)>(s: seq<C>) {
    forall i, j :: 0 <= i < j < |s| ==> s[i] != s[j]
  }

  /** `list.remove` takes out the element at the first position holding `x`. */
  lemma {:induction false} RemoveFirstAt<C>(s: seq<C>, x: C, j: int)
    requires 0 <= j < |s| && s[j] == x && forall k :: 0 <= k < j ==> s[k] != x
    ensures RemoveFirst(s, x) == s[..j] + s[j + 1..]
  {
    if j == 0 {
      assert s[..0] + s[1..] == s[1..];
    } else {
      var t := s[1..];
      assert s[0] != x;
      forall k | 0 <= k < j - 1 ensures t[k] != x {
        assert t[k] == s[k + 1];
      }
      RemoveFirstAt(t, x, j - 1);
      JoinAround(s, j);
    }
  }

  /** Putting the first element back in front of the rest with its element `j` taken out. */
  lemma JoinAround<C>(s: seq<C>, j: int)
    requires 0 < j < |s|
    ensures [s[0]] + (s[1..][..j - 1] + s[1..][j..]) == s[..j] + s[j + 1..]
  {
    assert s[1..][..j - 1] == s[1..j] && s[1..][j..] == s[j + 1..];
    assert [s[0]] + s[1..j] == s[..j];
  }

  /** The positions of a list with one element taken out. */
  lemma DropAtIndex<C>(s: seq<C>, j: int, k: int)
    requires 0 <= j < |s| && 0 <= k < |s| - 1
    ensures (s[..j] + s[j + 1..])[k] == if k < j then s[k] else s[k + 1]
  {
  }

  class Chain<C(==)> {
    var callbacks: seq<C>
    var names: map<string, C>

    /**
     * With distinct callbacks the list holds exactly the registered callbacks,
     * once each, with `sys.excepthook`'s last.
     */
    ghost predicate Valid()
      reads this
    {
      ValidState(callbacks, names)
    }

    /** The class attributes start empty. */
    constructor ()
      ensures callbacks == [] && names == map[]
      ensures Valid()
    {
      callbacks := [];
      names := map[];
    }

    /** A callback registered under a name other than `name`. */
    ghost predicate RegisteredElsewhere(name: string, callback: C)
      reads this
    {
      exists n :: n in names && n != name && names[n] == callback
    }

    /**
     * `add`: `sys.excepthook` is appended once and never replaced; any other
     * name's previous callback is removed and the new one put at the front.
     * Removing a callback that is not in the list raises `ValueError`, which
     * does not happen in a valid chain.
     */
    method Add(name: string, callback: C) returns (r: Result<(), string>)
      modifies this
      ensures name == SysExcepthook && name in old(names) ==> callbacks == old(callbacks) && names == old(names) && r.Ok?
      ensures name == SysExcepthook && name !in old(names) ==>
        callbacks == old(callbacks) + [callback] && names == old(names)[name := callback] && r.Ok?
      ensures name != SysExcepthook && name !in old(names) ==>
        callbacks == [callback] + old(callbacks) && names == old(names)[name := callback] && r.Ok?
      ensures name != SysExcepthook && name in old(names) && old(names[name]) in old(callbacks) ==>
        callbacks == [callback] + RemoveFirst(old(callbacks), old(names[name]))
        && names == old(names)[name := callback] && r.Ok?
      ensures name != SysExcepthook && name in old(names) && old(names[name]) !in old(callbacks) ==>
        callbacks == old(callbacks) && names == old(names) && r.Err?
      ensures old(Valid()) ==> r.Ok?
      ensures old(Valid()) && !old(RegisteredElsewhere(name, callback)) ==> Valid()
    {
      ghost var wasValid := Valid();
      ghost var unshared := !RegisteredElsewhere(name, callback);
      if name == SysExcepthook {
        if name in names {
          return Ok(());
        }
        if wasValid && unshared {
          AddSysKeepsValid(callbacks, names, callback);
        }
        callbacks := callbacks + [callback];
      } else {
        if name in names {
          if names[name] !in callbacks {
            assert !wasValid;
            return Err("ValueError: list.remove(x): x not in list");
          }
        }
        if wasValid && unshared {
          AddFrontKeepsValid(callbacks, names, name, callback);
        }
        if name in names {
          callbacks := RemoveFirst(callbacks, names[name]);
        }
        callbacks := [callback] + callbacks;
      }
      names := names[name := callback];
      r := Ok(());
    }

    /**
     * `remove`: an unknown name is ignored; otherwise the name is forgotten
     * and its callback removed from the list (a `ValueError` after forgetting
     * the name when the callback is missing, which a valid chain rules out).
     */
    method Remove(name: string) returns (r: Result<(), string>)
      modifies this
      ensures name !in old(names) ==> callbacks == old(callbacks) && names == old(names) && r.Ok?
      ensures name in old(names) ==> names == old(names) - {name}
      ensures name in old(names) && old(names[name]) in old(callbacks) ==>
        callbacks == RemoveFirst(old(callbacks), old(names[name])) && r.Ok?
      ensures name in old(names) && old(names[name]) !in old(callbacks) ==> callbacks == old(callbacks) && r.Err?
      ensures old(Valid()) ==> r.Ok? && Valid()
    {
      if name !in names {
        return Ok(());
      }
      ghost var wasValid := Valid();
      var callback := names[name];
      names := names - {name};
      if callback !in callbacks {
        return Err("ValueError: list.remove(x): x not in list");
      }
      if wasValid {
        RemoveKeepsValid(old(callbacks), old(names), name);
      }
      callbacks := RemoveFirst(callbacks, callback);
      r := Ok(());
    }

    /** `hook`: every callback is called, in list order, with the exception. */
    method Hook<E>(exc: E) returns (calls: seq<(C, E)>)
      ensures |calls| == |callbacks|
      ensures forall i :: 0 <= i < |calls| ==> calls[i] == (callbacks[i], exc)
    {
      calls := [];
      for i := 0 to |callbacks|
        invariant |calls| == i
        invariant forall k :: 0 <= k < i ==> calls[k] == (callbacks[k], exc)
      {
        calls := calls + [(callbacks[i], exc)];
      }
    }
  }

  /** No two names share a callback. */
  ghost predicate Injective<C>(names: map<string, C>) {
    forall a, b :: a in names && b in names && a != b ==> names[a] != names[b]
  }

  /** The list holds the registered callbacks and nothing else. */
  ghost predicate Listed<C>(callbacks: seq<C>, names: map<string, C>) {
    (forall i :: 0 <= i < |callbacks| ==> callbacks[i] in names.Values)
    && (forall n :: n in names ==> names[n] in callbacks)
  }

  ghost predicate SysLast<C>(callbacks: seq<C>, names: map<string, C>) {
    SysExcepthook in names ==> |callbacks| > 0 && callbacks[|callbacks| - 1] == names[SysExcepthook]
  }

  /** The chain invariant on the list and the map. */
  ghost predicate ValidState<C>(callbacks: seq<C>, names: map<string, C>) {
    Injective(names) && Distinct(callbacks) && Listed(callbacks, names) && SysLast(callbacks, names)
  }

  /** Taking one element out of a list without repeats leaves a list without repeats. */
  lemma DropDistinct<C>(s: seq<C>, j: int)
    requires Distinct(s) && 0 <= j < |s|
    ensures Distinct(s[..j] + s[j + 1..])
  {
    var d := s[..j] + s[j + 1..];
    forall p, q | 0 <= p < q < |d| ensures d[p] != d[q] {
      DropAtIndex(s, j, p);
      DropAtIndex(s, j, q);
    }
  }

  /** Taking out position `j`, which holds `name`'s callback, leaves the other names' callbacks listed. */
  lemma DropListed<C>(callbacks: seq<C>, names: map<string, C>, name: string, j: int)
    requires ValidState(callbacks, names) && name in names
    requires 0 <= j < |callbacks| && callbacks[j] == names[name]
    ensures Listed(callbacks[..j] + callbacks[j + 1..], names - {name})
  {
    var names' := names - {name};
    var cs := callbacks[..j] + callbacks[j + 1..];
    forall i | 0 <= i < |cs| ensures cs[i] in names'.Values {
      DropAtIndex(callbacks, j, i);
      var i' := if i < j then i else i + 1;
      assert cs[i] == callbacks[i'] && callbacks[i'] != names[name];
      assert callbacks[i'] in names.Values;
      var n :| n in names && names[n] == callbacks[i'];
      assert n in names' && names'[n] == cs[i];
    }
    forall n | n in names' ensures names'[n] in cs {
      assert names[n] in callbacks && names[n] != names[name];
      var p :| 0 <= p < |callbacks| && callbacks[p] == names[n];
      var p' := if p < j then p else p - 1;
      DropAtIndex(callbacks, j, p');
      assert cs[p'] == names'[n];
    }
  }

  /** Removing a registered name keeps the chain valid. */
  lemma RemoveKeepsValid<C>(callbacks: seq<C>, names: map<string, C>, name: string)
    requires ValidState(callbacks, names) && name in names
    ensures ValidState(RemoveFirst(callbacks, names[name]), names - {name})
  {
    var x := names[name];
    assert x in callbacks;
    var j :| 0 <= j < |callbacks| && callbacks[j] == x;
    RemoveFirstAt(callbacks, x, j);
    DropDistinct(callbacks, j);
    DropListed(callbacks, names, name, j);
    DropInjective(names, name);
    DropSysLast(callbacks, names, name, j);
  }

  /** A map without one of its keys is still injective. */
  lemma DropInjective<C>(names: map<string, C>, name: string)
    requires Injective(names)
    ensures Injective(names - {name})
  {
  }

  /** Taking out the callback of a name other than `sys.excepthook`'s keeps that hook last. */
  lemma DropSysLast<C>(callbacks: seq<C>, names: map<string, C>, name: string, j: int)
    requires ValidState(callbacks, names) && name in names
    requires 0 <= j < |callbacks| && callbacks[j] == names[name]
    ensures SysLast(callbacks[..j] + callbacks[j + 1..], names - {name})
  {
    var cs := callbacks[..j] + callbacks[j + 1..];
    if SysExcepthook in names - {name} {
      assert names[SysExcepthook] != names[name];
      assert j != |callbacks| - 1;
      DropAtIndex(callbacks, j, |cs| - 1);
    }
  }

  /** Appending `sys.excepthook`'s callback, not registered under another name, keeps the chain valid. */
  lemma AddSysKeepsValid<C>(callbacks: seq<C>, names: map<string, C>, callback: C)
    requires ValidState(callbacks, names) && SysExcepthook !in names
    requires forall n :: n in names ==> names[n] != callback
    ensures ValidState(callbacks + [callback], names[SysExcepthook := callback])
  {
    var cs := callbacks + [callback];
    var names' := names[SysExcepthook := callback];
    assert callback !in callbacks by {
      forall i | 0 <= i < |callbacks| ensures callbacks[i] != callback {
        assert callbacks[i] in names.Values;
      }
    }
    assert Distinct(cs) by {
      forall i, j | 0 <= i < j < |cs| ensures cs[i] != cs[j] {
        assert cs[i] == callbacks[i];
        if j < |callbacks| {
          assert cs[j] == callbacks[j];
        }
      }
    }
    forall i | 0 <= i < |cs| ensures cs[i] in names'.Values {
      if i < |callbacks| {
        assert cs[i] == callbacks[i];
        assert callbacks[i] in names.Values;
        var n :| n in names && names[n] == callbacks[i];
        assert n != SysExcepthook && names'[n] == cs[i];
      } else {
        assert names'[SysExcepthook] == cs[i];
      }
    }
    forall n | n in names' ensures names'[n] in cs {
      if n != SysExcepthook {
        assert names[n] in callbacks;
      }
    }
  }

  /** A callback no name holds, put at the front for a new name, keeps the chain valid. */
  lemma ConsKeepsValid<C>(rest: seq<C>, others: map<string, C>, name: string, callback: C)
    requires ValidState(rest, others) && name !in others && name != SysExcepthook
    requires forall n :: n in others ==> others[n] != callback
    ensures ValidState([callback] + rest, others[name := callback])
  {
    var names' := others[name := callback];
    var cs := [callback] + rest;
    assert callback !in rest by {
      forall i | 0 <= i < |rest| ensures rest[i] != callback {
        assert rest[i] in others.Values;
      }
    }
    assert Distinct(cs) by {
      forall i, j | 0 <= i < j < |cs| ensures cs[i] != cs[j] {
        assert cs[j] == rest[j - 1];
        if i > 0 {
          assert cs[i] == rest[i - 1];
        }
      }
    }
    forall i | 0 <= i < |cs| ensures cs[i] in names'.Values {
      if i == 0 {
        assert names'[name] == cs[i];
      } else {
        assert cs[i] == rest[i - 1];
        assert rest[i - 1] in others.Values;
        var n :| n in others && others[n] == rest[i - 1];
        assert names'[n] == cs[i];
      }
    }
    forall n | n in names' ensures names'[n] in cs {
      if n != name {
        assert others[n] in rest;
      }
    }
    if SysExcepthook in names' {
      assert cs[|cs| - 1] == rest[|rest| - 1];
    }
  }

  /** Putting a callback, not registered under another name, at the front for a name other than `sys.excepthook` keeps the chain valid. */
  lemma AddFrontKeepsValid<C>(callbacks: seq<C>, names: map<string, C>, name: string, callback: C)
    requires ValidState(callbacks, names) && name != SysExcepthook
    requires forall n :: n in names && n != name ==> names[n] != callback
    ensures var rest := if name in names then RemoveFirst(callbacks, names[name]) else callbacks;
            ValidState([callback] + rest, names[name := callback])
  {
    var others := names - {name};
    assert others[name := callback] == names[name := callback];
    if name in names {
      RemoveKeepsValid(callbacks, names, name);
      ConsKeepsValid(RemoveFirst(callbacks, names[name]), others, name, callback);
    } else {
      assert others == names;
      ConsKeepsValid(callbacks, names, name, callback);
    }
  }
}
