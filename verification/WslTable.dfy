/** The table of settings as the shell ships it, and that it is one the laws
    hold for. */
module WslTable {
  import opened Text
  import opened WslConfig

  datatype Row = Row(section: string, key: string)

  const MACHINE: seq<string> := [
    "memory", "processors", "swap", "swapFile", "kernel", "kernelModules", "kernelCommandLine",
    "localhostForwarding", "guiApplications", "debugConsole"
  ]

  const NETWORK: seq<string> := [
    "nestedVirtualization", "safeMode", "firewall", "dnsTunneling", "dnsProxy", "autoProxy",
    "pageReporting", "maxCrashDumpCount", "vmIdleTimeout", "networkingMode", "defaultVhdSize"
  ]

  const TRIAL: seq<string> := [
    "autoMemoryReclaim", "sparseVhd", "hostAddressLoopback"
  ]

  const TRIAL_NETWORK: seq<string> := [
    "bestEffortDnsParsing", "dnsTunnelingIpAddress", "initialAutoProxyTimeout", "ignoredPorts"
  ]

  function Rows(section: string, keys: seq<string>): (r: seq<Row>)
    ensures |r| == |keys|
    ensures forall i :: 0 <= i < |keys| ==> r[i] == Row(section, keys[i])
  {
    seq(|keys|, i requires 0 <= i < |keys| => Row(section, keys[i]))
  }

  // In the order of the source.
  function OwnedRows(): seq<Row> {
    Rows(WSL2, MACHINE) + Rows(WSL2, NETWORK) + Rows(EXPERIMENTAL, TRIAL) + Rows(EXPERIMENTAL, TRIAL_NETWORK)
  }

  predicate GoodKey(key: string) {
    key != [] && forall i :: 0 <= i < |key| ==> 'A' <= key[i] <= 'Z' || 'a' <= key[i] <= 'z'
  }

  predicate GoodRow(row: Row) {
    GoodKey(row.key) && (row.section == WSL2 || row.section == EXPERIMENTAL)
  }

  // The first row that names the key, as the code's search finds it.
  function TableOf(rows: seq<Row>): Table {
    if rows == [] then Table(map[])
    else Table(TableOf(rows[1..]).home[Lower(rows[0].key) := rows[0].section])
  }

  function FirstRow(rows: seq<Row>, key: string): int {
    if rows == [] then 0
    else if Same(rows[0].key, key) then 0
    else 1 + FirstRow(rows[1..], key)
  }

  lemma {:induction false} TableIsFirstRow(rows: seq<Row>, key: string)
    ensures 0 <= FirstRow(rows, key) <= |rows|
    ensures Owned(TableOf(rows), key) <==> FirstRow(rows, key) < |rows|
    ensures Owned(TableOf(rows), key) ==> Documented(TableOf(rows), key) == rows[FirstRow(rows, key)].section
  {
    if rows != [] {
      TableIsFirstRow(rows[1..], key);
    }
  }

  lemma LowerOfGoodKey(key: string)
    requires GoodKey(key)
    ensures Plain(Lower(key)) && Lower(Lower(key)) == Lower(key)
  {
    LowerIdempotent(key);
    assert Lower(key)[0] == LowerChar(key[0]);
  }

  lemma SectionsArePlain(section: string)
    requires section == WSL2 || section == EXPERIMENTAL
    ensures Plain(section) && Lower(section) == section
  {
  }

  lemma {:induction false} GoodRowsMakeAValidTable(rows: seq<Row>)
    requires forall row :: row in rows ==> GoodRow(row)
    ensures ValidTable(TableOf(rows))
  {
    hide Plain, Lower, GoodKey;
    if rows != [] {
      var row := rows[0];
      assert row in rows;
      GoodRowsMakeAValidTable(rows[1..]);
      LowerOfGoodKey(row.key);
      SectionsArePlain(row.section);
    }
  }

  lemma MachineKeysAreGood()
    ensures forall i :: 0 <= i < |MACHINE| ==> GoodKey(MACHINE[i])
  {
  }

  lemma NetworkKeysAreGood()
    ensures forall i :: 0 <= i < |NETWORK| ==> GoodKey(NETWORK[i])
  {
  }

  lemma TrialKeysAreGood()
    ensures forall i :: 0 <= i < |TRIAL| ==> GoodKey(TRIAL[i])
  {
  }

  lemma TrialNetworkKeysAreGood()
    ensures forall i :: 0 <= i < |TRIAL_NETWORK| ==> GoodKey(TRIAL_NETWORK[i])
  {
  }

  lemma GoodKeysMakeGoodRows(section: string, keys: seq<string>)
    requires section == WSL2 || section == EXPERIMENTAL
    requires forall i :: 0 <= i < |keys| ==> GoodKey(keys[i])
    ensures forall row :: row in Rows(section, keys) ==> GoodRow(row)
  {
  }

  /** The shipped table is valid, so every law holds for it. */
  lemma OwnedTableIsValid()
    ensures ValidTable(TableOf(OwnedRows()))
  {
    hide TableOf, GoodRow;
    MachineKeysAreGood();
    NetworkKeysAreGood();
    TrialKeysAreGood();
    TrialNetworkKeysAreGood();
    GoodKeysMakeGoodRows(WSL2, MACHINE);
    GoodKeysMakeGoodRows(WSL2, NETWORK);
    GoodKeysMakeGoodRows(EXPERIMENTAL, TRIAL);
    GoodKeysMakeGoodRows(EXPERIMENTAL, TRIAL_NETWORK);
    GoodRowsMakeAValidTable(OwnedRows());
  }
}
