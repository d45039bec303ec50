/** The "ensure server entry" merge that `addFastMcpServer` applies to each
    mcp.json document it loads. */
module McpConfig {
  import opened Wrappers
  import opened Json

  const ServerUrl: string := "https://abcstark-server.fastmcp.app/mcp"
  const ServerKey: string := "fastmcp-documentation-resource"
  const ServerType: string := "http"

  /** The entry `{ url: SERVER_URL, type: SERVER_TYPE }` that the merge installs. */
  const ServerEntry: Json := Obj(map["url" := Str(ServerUrl), "type" := Str(ServerType)])

  /** The documents the merge handles: the root is an object, and `servers`,
      when present and truthy, is an object. On other roots the program throws
      or relies on JavaScript property rules for arrays and primitives. */
  predicate WellShaped(doc: Json) {
    && doc.Obj?
    && ("servers" in doc.fields && Truthy(doc.fields["servers"]) ==> doc.fields["servers"].Obj?)
  }

  /** `servers` after `if (!config.servers) config.servers = {}`. */
  function ServersOf(doc: Json): (r: map<string, Json>)
    requires WellShaped(doc)
    // an object under `servers` is used as it is
    ensures "servers" in doc.fields && doc.fields["servers"].Obj? ==> r == doc.fields["servers"].fields
    // a missing or falsy `servers` (the only other shapes a well-shaped document has) becomes `{}`
    ensures !("servers" in doc.fields && doc.fields["servers"].Obj?) ==> r == map[]
  {
    match Member(doc, "servers")
    case Some(s) => if Truthy(s) then s.fields else map[]
    case None => map[]
  }

  /** `inputs` after `if (!Array.isArray(config.inputs)) config.inputs = []`. */
  function InputsOf(doc: Json): (r: seq<Json>)
    // an array under `inputs` is kept verbatim; anything else, or nothing, becomes `[]`
    ensures doc.Obj? && "inputs" in doc.fields && doc.fields["inputs"].Arr? ==> r == doc.fields["inputs"].items
    ensures !(doc.Obj? && "inputs" in doc.fields && doc.fields["inputs"].Arr?) ==> r == []
  {
    match Member(doc, "inputs")
    case Some(Arr(xs)) => xs
    case _ => []
  }

  /** The entry under the server key already points at the server's url,
      whatever else it holds. */
  predicate HasServer(servers: map<string, Json>) {
    && ServerKey in servers
    && servers[ServerKey].Obj?
    && "url" in servers[ServerKey].fields
    && servers[ServerKey].fields["url"] == Str(ServerUrl)
  }

  /** The program's test `!servers[KEY] || servers[KEY].url !== SERVER_URL`:
      it asks for an entry exactly when none with the right url is there. */
  predicate NeedsEntry(servers: map<string, Json>): (r: bool)
    ensures r <==> !HasServer(servers)
  {
    || ServerKey !in servers
    || !Truthy(servers[ServerKey])
    || Member(servers[ServerKey], "url") != Some(Str(ServerUrl))
  }

  /** Two objects agree on a property: both lack it or both hold the same value. */
  predicate SameMember(a: Json, b: Json, k: string) {
    Member(a, k) == Member(b, k)
  }

  /** Two server maps agree on a key. */
  predicate SameServer(a: map<string, Json>, b: map<string, Json>, k: string) {
    (k in a <==> k in b) && (k in a ==> a[k] == b[k])
  }

  /** The merged document and whether the merge changed anything. */
  datatype Merged = Merged(doc: Json, changed: bool)

  /** What `addFastMcpServer` does to one loaded document: default `servers`
      and `inputs`, then install the entry if its url is missing or wrong. */
  function Merge(doc: Json): (r: Merged)
    requires WellShaped(doc)
    // the result is again a document the merge handles
    ensures WellShaped(r.doc)
    // afterwards the server is registered with its url
    ensures HasServer(ServersOf(r.doc))
    // change detection looks at the url only
    ensures r.changed <==> !HasServer(ServersOf(doc))
    // a change installs exactly the entry; otherwise the servers are left as they were
    ensures r.changed ==> ServersOf(r.doc)[ServerKey] == ServerEntry
    ensures !r.changed ==> ServersOf(r.doc) == ServersOf(doc)
  {
    var servers := ServersOf(doc);
    var changed := NeedsEntry(servers);
    var servers' := if changed then servers[ServerKey := ServerEntry] else servers;
    Merged(Obj(doc.fields["servers" := Obj(servers')]["inputs" := Arr(InputsOf(doc))]), changed)
  }

  /** The merge touches nothing but the one server entry and the two
      containers: other servers and other top-level properties keep their
      values, an array under `inputs` is kept verbatim and anything else there
      becomes `[]`. */
  lemma MergeLeavesRestAlone(doc: Json)
    requires WellShaped(doc)
    ensures forall k :: k != ServerKey ==> SameServer(ServersOf(Merge(doc).doc), ServersOf(doc), k)
    ensures forall f :: f != "servers" && f != "inputs" ==> SameMember(Merge(doc).doc, doc, f)
    ensures Member(Merge(doc).doc, "inputs") == Some(Arr(InputsOf(doc)))
    ensures InputsOf(doc) == (if Member(doc, "inputs").Some? && Member(doc, "inputs").value.Arr?
                              then Member(doc, "inputs").value.items else [])
  {
  }

  /** Merging a merged document again changes nothing and reports no change. */
  lemma MergeIdempotent(doc: Json)
    requires WellShaped(doc)
    ensures Merge(Merge(doc).doc) == Merged(Merge(doc).doc, false)
  {
    var d := Merge(doc).doc;
    assert d.fields["servers" := Obj(ServersOf(d))]["inputs" := Arr(InputsOf(d))] == d.fields;
  }

  /** The load-or-default value `{}` merges into exactly the minimal document
      `{ servers: { KEY: { url, type } }, inputs: [] }`, as a change. */
  lemma MergeEmpty()
    ensures WellShaped(Obj(map[]))
    ensures Merge(Obj(map[])) ==
      Merged(Obj(map["servers" := Obj(map[ServerKey := ServerEntry]), "inputs" := Arr([])]), true)
  {
  }

  /** Change detection by url only: an entry with the right url and any other
      `type` (here "sse") is not replaced, and the merge reports no change. */
  lemma StaleTypeIsKept()
    ensures var entry := Obj(map["url" := Str(ServerUrl), "type" := Str("sse")]);
      var doc := Obj(map["servers" := Obj(map[ServerKey := entry])]);
      WellShaped(doc) && !Merge(doc).changed && ServersOf(Merge(doc).doc)[ServerKey] == entry
  {
    var entry := Obj(map["url" := Str(ServerUrl), "type" := Str("sse")]);
    assert HasServer(map[ServerKey := entry]);
  }

  /** The document `{"servers":{"other":{"url":"x","type":"http"}},"inputs":["keep"]}`
      gains the entry while `other` and the input `"keep"` stay as they were. */
  lemma OtherServerAndInputsKept()
    ensures var other := Obj(map["url" := Str("x"), "type" := Str("http")]);
      var doc := Obj(map["servers" := Obj(map["other" := other]), "inputs" := Arr([Str("keep")])]);
      && WellShaped(doc)
      && Merge(doc) == Merged(Obj(map["servers" := Obj(map["other" := other, ServerKey := ServerEntry]),
                                      "inputs" := Arr([Str("keep")])]), true)
  {
    var other := Obj(map["url" := Str("x"), "type" := Str("http")]);
    assert "other" != ServerKey;
    assert !HasServer(map["other" := other]);
  }
}
