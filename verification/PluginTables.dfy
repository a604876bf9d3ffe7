/** The tables plugins register in at startup. */
module PluginTables {
  import opened Orders

  const POSITION_LISTENER := 0
  const POSITION_NETWORK := 1

  /** What a plugin tells about itself: its place, and the interfaces it implements. */
  datatype Plugin = Plugin(order: PluginOrder, isGo: bool, isNative: bool, isConsumer: bool)

  /** The panics of RegisterPlugin. */
  datatype Verdict = Registered | UnknownPluginType | InvalidGoOrder | InvalidNativeOrder | InvalidConsumerOrder

  const NATIVE_POSITIONS := {POSITION_OUTER, POSITION_INNER, POSITION_LISTENER, POSITION_NETWORK}

  /** The positions the documentation reserves. */
  predicate WellPlaced(p: Plugin) {
    && (p.isGo ==> p.order.position != POSITION_OUTER && p.order.position != POSITION_INNER)
    && (!p.isGo ==> p.isNative && p.order.position in NATIVE_POSITIONS)
    && (p.isConsumer ==> p.order.position == POSITION_AUTHN)
  }

  class PluginTable {
    var types: map<string, Plugin>
    var plugins: map<string, Plugin>
    var factories: set<string>

    /** Whatever was registered, consumer plugins sit at Authn and Go plugins
        leave the outer and inner positions alone. */
    ghost predicate Valid()
      reads this
    {
      && (forall n | n in plugins :: WellPlaced(plugins[n]) && n in types)
      && (forall n | n in plugins && plugins[n].isGo :: n in factories)
    }

    /** The plugin and its type agree on the order. */
    ghost predicate Consistent()
      reads this
    {
      forall n | n in plugins && n in types :: types[n].order == plugins[n].order
    }

    constructor ()
      ensures Valid() && Consistent() && plugins == map[] && types == map[] && factories == {}
    {
      types, plugins, factories := map[], map[], {};
    }

    method RegisterPluginType(name: string, plugin: Plugin)
      modifies `types
      ensures types == old(types)[name := plugin]
      ensures old(Valid()) ==> Valid()
      ensures old(Valid() && Consistent()) ==>
        (Consistent() <==> name !in plugins || plugins[name].order == plugin.order)
    {
      types := types[name := plugin];
    }

    /** A plugin is accepted exactly when it is well placed; a rejected one
        leaves plugins and types alone, though a Go plugin rejected for being a
        misplaced consumer leaves its filter factory behind. The positions count
        from Listener 0, Network 1 and Outer 2 over Authn 4 to Inner 11. */
    method RegisterPlugin(name: string, plugin: Plugin) returns (v: Verdict)
      requires Valid()
      modifies this
      ensures Valid()
      ensures v == Registered <==> WellPlaced(plugin)
      ensures v == InvalidGoOrder <==> plugin.isGo && plugin.order.position in {2, 11}
      ensures v == UnknownPluginType <==> !plugin.isGo && !plugin.isNative
      ensures v == InvalidNativeOrder <==>
        !plugin.isGo && plugin.isNative && plugin.order.position !in {0, 1, 2, 11}
      ensures v == InvalidConsumerOrder ==> plugin.isConsumer && plugin.order.position != 4
      ensures v == Registered ==> plugins == old(plugins)[name := plugin] && types == old(types)[name := plugin]
      ensures v != Registered ==> plugins == old(plugins) && types == old(types)
      ensures factories == old(factories) + (if plugin.isGo && v != InvalidGoOrder then {name} else {})
      ensures old(Consistent()) ==> Consistent()
    {
      var position := plugin.order.position;
      if plugin.isGo {
        if position == POSITION_OUTER || position == POSITION_INNER {
          return InvalidGoOrder;
        }
        factories := factories + {name};
      } else if plugin.isNative {
        if position !in NATIVE_POSITIONS {
          return InvalidNativeOrder;
        }
      } else {
        return UnknownPluginType;
      }
      if plugin.isConsumer && position != POSITION_AUTHN {
        return InvalidConsumerOrder;
      }
      plugins := plugins[name := plugin];
      RegisterPluginType(name, plugin);
      return Registered;
    }

    method DisablePlugin(name: string)
      requires Valid()
      modifies `plugins, `types
      ensures Valid() && (old(Consistent()) ==> Consistent())
      ensures plugins == old(plugins) - {name} && types == old(types) - {name}
    {
      plugins := plugins - {name};
      types := types - {name};
    }
  }

  /** With a consistent table the consumer plugins are at Authn in the order the
      chains are sorted by, which is what merging consumer filters relies on. */
  lemma ConsumersAtAuthn(table: PluginTable, n: string)
    requires table.Valid() && table.Consistent()
    requires n in table.plugins && table.plugins[n].isConsumer
    ensures n in table.types && table.types[n].order.position == POSITION_AUTHN == 4
  {
    assert WellPlaced(table.plugins[n]);
  }
}
