/**
 * The static alias table that turns the instrument names used in signals
 * into the names the brokerage trades, and its inversion.
 */
module Symbols {
  import opened Dicts

  /** The entries of the alias literal, in the order they are written. */
  const SymbolEntries: seq<(string, string)> := [
    ("US30", "US30Cash"),
    ("DJ30", "US30Cash"),
    ("DAX", "GER40Cash"),
    ("GER30", "GER40Cash"),
    ("GER40", "GER40Cash"),
    ("GOLD", "XAUUSD"),
    ("XAUUSD", "XAUUSD"),
    ("OIL", "OILCash"),
    ("USOIL", "OILCash"),
    ("NIKKEI", "JP225Cash"),
    ("US100", "US100Cash")
  ]

  /** SYMBOL_MAP: signal-side name to broker-side name. */
  function SymbolMap(): map<string, string> {
    BuildMap(SymbolEntries)
  }

  /** REVERSE_SYMBOL_MAP: broker-side name back to a signal-side name. */
  function ReverseSymbolMap(): map<string, string> {
    BuildMap(Swapped(SymbolEntries))
  }

  /** BuildMap of the whole alias literal, unfolded pair by pair. */
  lemma BuildMapUnfolded<K, V>(pairs: seq<(K, V)>)
    requires |pairs| == 11
    ensures BuildMap(pairs) ==
      map[][pairs[0].0 := pairs[0].1][pairs[1].0 := pairs[1].1][pairs[2].0 := pairs[2].1]
        [pairs[3].0 := pairs[3].1][pairs[4].0 := pairs[4].1][pairs[5].0 := pairs[5].1]
        [pairs[6].0 := pairs[6].1][pairs[7].0 := pairs[7].1][pairs[8].0 := pairs[8].1]
        [pairs[9].0 := pairs[9].1][pairs[10].0 := pairs[10].1]
  {
    assert pairs[..0] == [];
    BuildMapPrefix(pairs, 0); BuildMapPrefix(pairs, 1); BuildMapPrefix(pairs, 2);
    BuildMapPrefix(pairs, 3); BuildMapPrefix(pairs, 4); BuildMapPrefix(pairs, 5);
    BuildMapPrefix(pairs, 6); BuildMapPrefix(pairs, 7); BuildMapPrefix(pairs, 8);
    BuildMapPrefix(pairs, 9); BuildMapPrefix(pairs, 10);
    assert pairs[..11] == pairs;
  }

  /** The alias literal names each signal-side name once. */
  lemma EntriesHaveDistinctAliases()
    ensures DistinctKeys(SymbolEntries)
  {
  }

  /** The keys of REVERSE_SYMBOL_MAP are exactly the broker names of SYMBOL_MAP. */
  lemma ReverseKeysAreBrokerNames()
    ensures ReverseSymbolMap().Keys == SymbolMap().Values
  {
    EntriesHaveDistinctAliases();
    InvertedKeysAreValues(SymbolEntries);
  }

  /** `SYMBOL_MAP[REVERSE_SYMBOL_MAP[v]] == v` for every broker name `v`. */
  lemma ReverseRoundTrip(v: string)
    requires v in ReverseSymbolMap()
    ensures ReverseSymbolMap()[v] in SymbolMap() && SymbolMap()[ReverseSymbolMap()[v]] == v
  {
    EntriesHaveDistinctAliases();
    InvertedRoundTrip(SymbolEntries, v);
  }

  /** The forward lookups the rest of the system relies on. */
  lemma ForwardLookups()
    ensures SymbolMap() == map[
      "US30" := "US30Cash", "DJ30" := "US30Cash", "DAX" := "GER40Cash", "GER30" := "GER40Cash",
      "GER40" := "GER40Cash", "GOLD" := "XAUUSD", "XAUUSD" := "XAUUSD", "OIL" := "OILCash",
      "USOIL" := "OILCash", "NIKKEI" := "JP225Cash", "US100" := "US100Cash"]
  {
    BuildMapUnfolded(SymbolEntries);
  }

  /** Where several aliases share a broker name, the inversion keeps the one written last. */
  lemma ReverseKeepsLastAlias()
    ensures ReverseSymbolMap() == map[
      "US30Cash" := "DJ30", "GER40Cash" := "GER40", "XAUUSD" := "XAUUSD",
      "OILCash" := "USOIL", "JP225Cash" := "NIKKEI", "US100Cash" := "US100"]
  {
    BuildMapUnfolded(Swapped(SymbolEntries));
  }
}
