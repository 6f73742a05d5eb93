/**
 The set of machines that a channel monitors. Five layers of filters, from the channel's definition and
 from the channel itself, are applied to the set in place; time stamps decide whether that is done at all.
 */
module Monitored {
  import opened Options

  type Machine = nat

  /** How a filter item selects machines. */
  datatype Test = Linked | Pattern | Property

  /**
   The machines of the program and what the filters can see of them. A pattern that does not compile, or
   the name of a master that does not exist, selects nothing.
   */
  datatype Program = Program(
    machines: set<Machine>,
    exporters: set<Machine>,
    selected: map<(Test, string), set<Machine>>,
    named: map<string, Machine>)
  {
    predicate Selects(t: Test, item: string, m: Machine) {
      m in machines && (t, item) in selected && m in selected[(t, item)]
    }
  }

  /** The filters of a channel definition. */
  datatype Definition = Definition(
    monitorsExports: bool,
    monitorLinked: set<string>,
    monitorsPatterns: set<string>,
    monitorsProperties: set<string>,
    ignoresPatterns: set<string>,
    monitorsNames: set<string>)

  /** The machines that some item selects. */
  ghost function Matching(p: Program, t: Test, items: set<string>): set<Machine> {
    set m | m in p.machines && exists item | item in items :: p.Selects(t, item, m)
  }

  ghost function Named(p: Program, names: set<string>): set<Machine> {
    set n | n in names && n in p.named :: p.named[n]
  }

  ghost function Exporting(p: Program, monitorsExports: bool): set<Machine> {
    if monitorsExports then p.machines * p.exporters else {}
  }

  ghost function Included(p: Program, d: Definition, exports: bool, s: set<Machine>): set<Machine> {
    s
    + Exporting(p, d.monitorsExports || exports)
    + Matching(p, Linked, d.monitorLinked)
    + Matching(p, Pattern, d.monitorsPatterns)
    + Matching(p, Property, d.monitorsProperties)
  }

  /** The layered expression: add, ignore, name, ignore, name. */
  ghost function Layered(p: Program, d: Definition, exports: bool, ignores: set<string>, names: set<string>,
                         s: set<Machine>): set<Machine> {
    (((Included(p, d, exports, s)
       - Matching(p, Pattern, d.ignoresPatterns))
      + Named(p, d.monitorsNames))
     - Matching(p, Pattern, ignores))
    + Named(p, names)
  }

  /** Applying the filters again changes nothing. */
  lemma {:induction false} LayeredIdempotent(p: Program, d: Definition, exports: bool, ignores: set<string>,
                                            names: set<string>, s: set<Machine>)
    ensures Layered(p, d, exports, ignores, names, Layered(p, d, exports, ignores, names, s)) ==
            Layered(p, d, exports, ignores, names, s)
  {
  }

  /** A machine that no filter ignores any more selects stays monitored: the filters only ever add or ignore. */
  lemma {:induction false} StaleStays(p: Program, d: Definition, exports: bool, ignores: set<string>,
                                      names: set<string>, s: set<Machine>, m: Machine)
    requires m in s && m !in Matching(p, Pattern, d.ignoresPatterns) && m !in Matching(p, Pattern, ignores)
    ensures m in Layered(p, d, exports, ignores, names, s)
  {
  }

  /** The machines that one item selects. */
  ghost function By(p: Program, t: Test, item: string): set<Machine> {
    set m | m in p.machines && p.Selects(t, item, m)
  }

  lemma {:induction false} MatchingMore(p: Program, t: Test, items: set<string>, item: string)
    ensures Matching(p, t, items + {item}) == Matching(p, t, items) + By(p, t, item)
  {
    forall m | m in By(p, t, item)
      ensures m in Matching(p, t, items + {item})
    {
      assert item in items + {item};
    }
  }

  class Channel {
    var definition: Definition
    var monitorsExports: bool
    var ignoresPatterns: set<string>
    var monitorsNames: set<string>
    var channelMachines: set<Machine>
    var published: map<Machine, int>      // MachineInstance::published, 0 if absent
    var lastModified: int
    var lastChecked: int
    ghost var dirty: bool                 // a filter of the channel has changed since the last full pass

    constructor (d: Definition)
      ensures definition == d && channelMachines == {} && lastModified == 0 && lastChecked == 0 && dirty && Timely(0)
      ensures monitorsExports == d.monitorsExports && ignoresPatterns == {} && monitorsNames == {} && published == map[]
    {
      definition, monitorsExports, ignoresPatterns, monitorsNames := d, d.monitorsExports, {}, {};
      channelMachines, published, lastModified, lastChecked, dirty := {}, map[], 0, 0, true;
    }

    function Count(m: Machine): int
      reads `published
    {
      if m in published then published[m] else 0
    }

    /** How often a machine has been published for reasons other than being in the set. */
    function Surplus(m: Machine): int
      reads `published, `channelMachines
    {
      Count(m) - if m in channelMachines then 1 else 0
    }

    method Insert(m: Machine)
      modifies `channelMachines, `published
      ensures channelMachines == old(channelMachines) + {m}
      ensures forall x :: Surplus(x) == old(Surplus(x))
    {
      if m !in channelMachines {
        published := published[m := Count(m) + 1];
        channelMachines := channelMachines + {m};
      }
    }

    method Erase(m: Machine)
      modifies `channelMachines, `published
      ensures channelMachines == old(channelMachines) - {m}
      ensures forall x :: Surplus(x) == old(Surplus(x))
    {
      if m in channelMachines {
        published := published[m := Count(m) - 1];
        channelMachines := channelMachines - {m};
      }
    }

    /** The loop over the exporters publishes every one of them, in the set already or not. */
    method IncludeExporters(p: Program)
      modifies `channelMachines, `published
      ensures channelMachines == old(channelMachines) + Exporting(p, true)
      ensures forall x :: Surplus(x) == old(Surplus(x)) + if x in Exporting(p, true) && x in old(channelMachines) then 1 else 0
    {
      var todo, done := p.machines * p.exporters, {};
      while todo != {}
        invariant todo !! done && todo + done == Exporting(p, true)
        invariant channelMachines == old(channelMachines) + done
        invariant forall x :: Surplus(x) == old(Surplus(x)) + if x in done && x in old(channelMachines) then 1 else 0
        decreases todo
      {
        var m :| m in todo;
        published := published[m := Count(m) + 1];
        channelMachines := channelMachines + {m};
        todo, done := todo - {m}, done + {m};
      }
    }

    method IncludeBy(p: Program, t: Test, item: string)
      modifies `channelMachines, `published
      ensures channelMachines == old(channelMachines) + By(p, t, item)
      ensures forall x :: Surplus(x) == old(Surplus(x))
    {
      var todo := p.machines;
      while todo != {}
        invariant todo <= p.machines
        invariant channelMachines == old(channelMachines) + (By(p, t, item) - todo)
        invariant forall x :: Surplus(x) == old(Surplus(x))
        decreases todo
      {
        var m :| m in todo;
        if p.Selects(t, item, m) {
          Insert(m);
        }
        todo := todo - {m};
      }
    }

    method IgnoreBy(p: Program, item: string)
      modifies `channelMachines, `published
      ensures channelMachines == old(channelMachines) - By(p, Pattern, item)
      ensures forall x :: Surplus(x) == old(Surplus(x))
    {
      var todo := p.machines;
      while todo != {}
        invariant todo <= p.machines
        invariant channelMachines == old(channelMachines) - (By(p, Pattern, item) - todo)
        invariant forall x :: Surplus(x) == old(Surplus(x))
        decreases todo
      {
        var m :| m in todo;
        if p.Selects(Pattern, item, m) {
          Erase(m);
        }
        todo := todo - {m};
      }
    }

    method IncludeSelected(p: Program, t: Test, items: set<string>)
      modifies `channelMachines, `published
      ensures channelMachines == old(channelMachines) + Matching(p, t, items)
      ensures forall x :: Surplus(x) == old(Surplus(x))
    {
      var todo, done := items, {};
      while todo != {}
        invariant todo + done == items
        invariant channelMachines == old(channelMachines) + Matching(p, t, done)
        invariant forall x :: Surplus(x) == old(Surplus(x))
        decreases todo
      {
        var item :| item in todo;
        MatchingMore(p, t, done, item);
        IncludeBy(p, t, item);
        todo, done := todo - {item}, done + {item};
      }
    }

    /** processIgnoresPatternList. */
    method ProcessIgnoresPatternList(p: Program, items: set<string>)
      modifies `channelMachines, `published
      ensures channelMachines == old(channelMachines) - Matching(p, Pattern, items)
      ensures forall x :: Surplus(x) == old(Surplus(x))
    {
      var todo, done := items, {};
      while todo != {}
        invariant todo + done == items
        invariant channelMachines == old(channelMachines) - Matching(p, Pattern, done)
        invariant forall x :: Surplus(x) == old(Surplus(x))
        decreases todo
      {
        var item :| item in todo;
        MatchingMore(p, Pattern, done, item);
        IgnoreBy(p, item);
        todo, done := todo - {item}, done + {item};
      }
    }

    method IncludeNamed(p: Program, names: set<string>)
      modifies `channelMachines, `published
      ensures channelMachines == old(channelMachines) + Named(p, names)
      ensures forall x :: Surplus(x) == old(Surplus(x))
    {
      var todo, done := names, {};
      while todo != {}
        invariant todo + done == names
        invariant channelMachines == old(channelMachines) + Named(p, done)
        invariant forall x :: Surplus(x) == old(Surplus(x))
        decreases todo
      {
        var n :| n in todo;
        if n in p.named {
          assert Named(p, done + {n}) == Named(p, done) + {p.named[n]};
          Insert(p.named[n]);
        } else {
          assert Named(p, done + {n}) == Named(p, done);
        }
        todo, done := todo - {n}, done + {n};
      }
    }

    /** The clock reads at least every time stamp, and a change is never older than the last full pass. */
    ghost predicate Timely(now: int)
      reads `lastModified, `lastChecked, `dirty
    {
      lastModified <= now && lastChecked <= now && (dirty ==> lastChecked <= lastModified)
    }

    /** The same for a clock that never reads the same twice: the stamps then tell exactly whether to skip. */
    ghost predicate Exact(now: int)
      reads `lastModified, `lastChecked, `dirty
    {
      lastModified < now && lastChecked < now && (dirty <==> lastChecked <= lastModified)
    }

    ghost function Filtered(p: Program, s: set<Machine>): set<Machine>
      reads `definition, `monitorsExports, `ignoresPatterns, `monitorsNames
    {
      Layered(p, definition, monitorsExports, ignoresPatterns, monitorsNames, s)
    }

    /** The layer that adds. */
    method IncludeAll(p: Program)
      modifies `channelMachines, `published
      ensures channelMachines == Included(p, definition, monitorsExports, old(channelMachines))
      ensures forall x :: Surplus(x) == old(Surplus(x)) +
                          if x in Exporting(p, definition.monitorsExports || monitorsExports) && x in old(channelMachines)
                          then 1 else 0
    {
      if definition.monitorsExports || monitorsExports {
        IncludeExporters(p);
      }
      IncludeSelected(p, Linked, definition.monitorLinked);
      IncludeSelected(p, Pattern, definition.monitorsPatterns);
      IncludeSelected(p, Property, definition.monitorsProperties);
    }

    /** The five layers of setupFilters. */
    method ApplyFilters(p: Program)
      modifies `channelMachines, `published
      ensures channelMachines == Filtered(p, old(channelMachines))
      ensures forall x :: Surplus(x) == old(Surplus(x)) +
                          if x in Exporting(p, definition.monitorsExports || monitorsExports) && x in old(channelMachines)
                          then 1 else 0
    {
      IncludeAll(p);
      ProcessIgnoresPatternList(p, definition.ignoresPatterns);
      IncludeNamed(p, definition.monitorsNames);
      ProcessIgnoresPatternList(p, ignoresPatterns);
      IncludeNamed(p, monitorsNames);
    }

    /**
     setupFilters. A full pass computes the layered expression and leaves nothing for another pass to do.
     With a clock that does not run backwards the pass is skipped only if no filter of the channel has
     changed since the last full one; with one that always moves on, exactly then.
     */
    method SetupFilters(p: Program, now: int) returns (skipped: bool)
      modifies `channelMachines, `published, `lastChecked, `dirty
      ensures skipped ==> channelMachines == old(channelMachines) && published == old(published) && dirty == old(dirty)
      ensures !skipped ==> channelMachines == Filtered(p, old(channelMachines)) && !dirty && lastChecked == now
      ensures !skipped ==> Filtered(p, channelMachines) == channelMachines
      ensures forall x :: Surplus(x) == old(Surplus(x)) +
                          if !skipped && x in Exporting(p, definition.monitorsExports || monitorsExports)
                             && x in old(channelMachines) then 1 else 0
      ensures old(Timely(now)) ==> Timely(now) && (skipped ==> !old(dirty))
      ensures old(Exact(now)) ==> Exact(now + 1) && (skipped <==> !old(dirty))
      ensures old(Exact(now)) ==>
                (Filtered(p, channelMachines) == channelMachines
                 <==> old(dirty) || Filtered(p, old(channelMachines)) == old(channelMachines))
    {
      if lastModified < lastChecked {
        return true;
      }
      ghost var was := channelMachines;
      ApplyFilters(p);
      LayeredIdempotent(p, definition, monitorsExports, ignoresPatterns, monitorsNames, was);
      lastChecked, dirty := now, false;
      return false;
    }

    // ----- changes to the filters of the channel itself -----

    method Modified(now: int)
      modifies `lastModified, `dirty
      ensures dirty && lastModified == now
      ensures old(Timely(now)) ==> Timely(now)
      ensures old(Exact(now)) ==> Exact(now + 1)
    {
      lastModified, dirty := now, true;
    }

    method AddMonitor(s: string, now: int)
      modifies `ignoresPatterns, `monitorsNames, `lastModified, `dirty
      ensures monitorsNames == old(monitorsNames) + {s} && ignoresPatterns == old(ignoresPatterns) - {"^" + s + "$"}
      ensures dirty && (old(Timely(now)) ==> Timely(now)) && (old(Exact(now)) ==> Exact(now + 1))
    {
      ignoresPatterns := ignoresPatterns - {"^" + s + "$"};
      monitorsNames := monitorsNames + {s};
      Modified(now);
    }

    method RemoveMonitor(s: string, now: int)
      modifies `ignoresPatterns, `monitorsNames, `lastModified, `dirty
      ensures s in old(monitorsNames) ==> monitorsNames == old(monitorsNames) - {s} && ignoresPatterns == old(ignoresPatterns)
      ensures s !in old(monitorsNames) ==>
                monitorsNames == old(monitorsNames) && ignoresPatterns == old(ignoresPatterns) + {"^" + s + "$"}
      ensures dirty && (old(Timely(now)) ==> Timely(now)) && (old(Exact(now)) ==> Exact(now + 1))
    {
      if s in monitorsNames {
        monitorsNames := monitorsNames - {s};
      } else {
        ignoresPatterns := ignoresPatterns + {"^" + s + "$"};
      }
      Modified(now);
    }

    method AddIgnorePattern(s: string, now: int)
      modifies `ignoresPatterns, `lastModified, `dirty
      ensures ignoresPatterns == old(ignoresPatterns) + {s}
      ensures dirty && (old(Timely(now)) ==> Timely(now)) && (old(Exact(now)) ==> Exact(now + 1))
    {
      ignoresPatterns := ignoresPatterns + {s};
      Modified(now);
    }

    method RemoveIgnorePattern(s: string, now: int)
      modifies `ignoresPatterns, `lastModified, `dirty
      ensures ignoresPatterns == old(ignoresPatterns) - {s}
      ensures dirty && (old(Timely(now)) ==> Timely(now)) && (old(Exact(now)) ==> Exact(now + 1))
    {
      ignoresPatterns := ignoresPatterns - {s};
      Modified(now);
    }

    /** addMonitorExports and removeMonitorExports: setting what is set already is no change. */
    method SetMonitorExports(on: bool, now: int)
      modifies `monitorsExports, `lastModified, `dirty
      ensures monitorsExports == on && (dirty <==> old(dirty) || on != old(monitorsExports))
      ensures (old(Timely(now)) ==> Timely(now)) && (old(Exact(now)) ==> Exact(now + 1))
    {
      if monitorsExports != on {
        monitorsExports := on;
        Modified(now);
      }
    }
  }

  /** One full pass over one exporting machine. */
  method PublishedOnce(p: Program) returns (c: Channel)
    requires p == Program({7}, {7}, map[], map[])
    ensures fresh(c) && c.definition == Definition(true, {}, {}, {}, {}, {}) && c.monitorsExports
    ensures c.ignoresPatterns == {} && c.monitorsNames == {} && c.channelMachines == {7} && c.Count(7) == 1
    ensures c.lastChecked == 1
  {
    c := new Channel(Definition(true, {}, {}, {}, {}, {}));
    OnlyExports(p, {});
    var _ := c.SetupFilters(p, 1);
    assert c.Surplus(7) == 0;
  }

  /** After two of them it is in the set once and has been published twice. */
  method PublishedTwice() returns (c: Channel)
    ensures c.channelMachines == {7} && c.Count(7) == 2
  {
    var p := Program({7}, {7}, map[], map[]);
    c := PublishedOnce(p);
    c.Modified(2);
    OnlyExports(p, {7});
    var _ := c.SetupFilters(p, 3);
    assert c.Surplus(7) == 1;
  }

  lemma {:induction false} OnlyExports(p: Program, s: set<Machine>)
    ensures Layered(p, Definition(true, {}, {}, {}, {}, {}), true, {}, {}, s) == s + p.machines * p.exporters
  {
  }

  lemma {:induction false} NoFilters(p: Program)
    ensures Layered(p, Definition(false, {}, {}, {}, {}, {}), false, {}, {}, {}) == {}
  {
  }

  lemma {:induction false} NamedIn(p: Program, d: Definition, exports: bool, names: set<string>, s: set<Machine>, n: string)
    requires n in d.monitorsNames && n in p.named
    ensures p.named[n] in Layered(p, d, exports, {}, names, s)
  {
    assert p.named[n] in Named(p, d.monitorsNames);
  }

  /** Time stamps of the channel do not see a change to its definition: the pass is skipped and a named machine missed. */
  method DefinitionChangeMissed() returns (c: Channel, skipped: bool)
    ensures skipped && c.Filtered(Program({7}, {}, map[], map["pump" := 7]), c.channelMachines) != c.channelMachines
  {
    var p := Program({7}, {}, map[], map["pump" := 7]);
    var d := Definition(false, {}, {}, {}, {}, {});
    c := new Channel(d);
    NoFilters(p);
    skipped := c.SetupFilters(p, 1);
    assert c.channelMachines == {};
    c.definition := d.(monitorsNames := {"pump"});
    NamedIn(p, c.definition, c.monitorsExports, c.monitorsNames, c.channelMachines, "pump");
    skipped := c.SetupFilters(p, 2);
  }
}
