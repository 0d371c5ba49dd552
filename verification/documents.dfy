/**
 * The documents the runtime persists as JSON files: the address manager's
 * subnet table (`map[string][]bool`) and one network record per network.
 * Files hold these values rather than bytes; `JsonSize` gives the length of
 * the text `encoding/json` would produce for a table, which is what the
 * address manager's single 2048-byte read has to fit.
 */
module Documents {
  import opened Wrappers
  import opened IPv4

  /** Canonical subnet text to one flag per address of the subnet (true = handed out). */
  type Table = map<string, seq<bool>>

  /** The `Network` record: name, subnet text, gateway address and driver name. */
  datatype NetworkRecord = NetworkRecord(name: string, subnet: string, gatewayIp: Option<Addr>, driver: string)

  /** The zero value `&Network{}` that a failed load leaves behind. */
  const EmptyNetwork := NetworkRecord("", "", None, "")

  /** What a file holds: a subnet table, a network record, or anything else. */
  datatype Content =
    | SubnetTable(table: Table)
    | NetworkDoc(network: NetworkRecord)
    | Other(text: string)

  /** Length of `true` / `false` in JSON. */
  function BoolSize(b: bool): nat
  {
    if b then 4 else 5
  }

  function BoolsBody(bits: seq<bool>): nat
    decreases |bits|
  {
    if |bits| == 0 then 0
    else if |bits| == 1 then BoolSize(bits[0])
    else BoolSize(bits[0]) + 1 + BoolsBody(bits[1..])
  }

  /** Length of the JSON array `[b0,b1,...]`. */
  function BoolsSize(bits: seq<bool>): nat
  {
    2 + BoolsBody(bits)
  }

  /** Length of one `"key":[...]` member (subnet texts need no escaping). */
  function EntrySize(key: string, bits: seq<bool>): nat
  {
    |key| + 2 + 1 + BoolsSize(bits)
  }

  ghost function EntriesSize(t: Table, keys: set<string>): nat
    requires keys <= t.Keys
    decreases keys
  {
    if keys == {} then 0
    else
      var k :| k in keys;
      EntrySize(k, t[k]) + (if |keys| > 1 then 1 else 0) + EntriesSize(t, keys - {k})
  }

  /** Length of `json.Marshal(table)`: braces around comma-separated members. */
  ghost function JsonSize(t: Table): nat
  {
    2 + EntriesSize(t, t.Keys)
  }

  /** Every flag costs at least four characters plus a separator. */
  lemma {:induction false} BoolsBodyLower(bits: seq<bool>)
    requires |bits| >= 1
    ensures BoolsBody(bits) >= 5 * |bits| - 1
    decreases |bits|
  {
    if |bits| > 1 {
      BoolsBodyLower(bits[1..]);
    }
  }

  /** A table is at least as long as any one of its members. */
  lemma {:induction false} EntriesSizeLower(t: Table, keys: set<string>, k: string)
    requires keys <= t.Keys && k in keys
    ensures EntriesSize(t, keys) >= EntrySize(k, t[k])
    decreases keys
  {
    var total := EntriesSize(t, keys);
    var c :| c in keys && total == EntrySize(c, t[c]) + (if |keys| > 1 then 1 else 0) + EntriesSize(t, keys - {c});
    var mine, rest := EntrySize(c, t[c]), EntriesSize(t, keys - {c});
    assert total == mine + (if |keys| > 1 then 1 else 0) + rest;
    if c != k {
      EntriesSizeLower(t, keys - {c}, k);
    }
  }

  /** The JSON text of a table with an n-address subnet is longer than 5n bytes. */
  lemma JsonSizeLower(t: Table, k: string)
    requires k in t && |t[k]| >= 1
    ensures JsonSize(t) > 5 * |t[k]|
  {
    EntriesSizeLower(t, t.Keys, k);
    BoolsBodyLower(t[k]);
  }
}
