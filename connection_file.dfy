/**
  The connection descriptor that tells the in-container kernel and the remote
  client where to meet: a dictionary from field name to JSON value.
*/
module ConnectionFile {

  /** The JSON values the descriptor holds. */
  datatype Value = Str(s: string) | Int(n: int)

  /** The descriptor dictionary. */
  type ConnectionInfo = map<string, Value>

  /** The fixed channel ports. */
  const PORTS: map<string, Value> := map[
    "shell_port" := Int(9001),
    "iopub_port" := Int(9002),
    "stdin_port" := Int(9003),
    "control_port" := Int(9004),
    "hb_port" := Int(9005)
  ]

  const BaseFields: set<string> := {"transport", "ip", "key", "signature_scheme"}

  const PortFields: set<string> := {"shell_port", "iopub_port", "stdin_port", "control_port", "hb_port"}

  /** The nine fields of every descriptor. */
  const DescriptorFields: set<string> := BaseFields + PortFields

  /** The fields written before the ports are merged in. */
  function BaseConfig(key: string): ConnectionInfo {
    map[
      "transport" := Str("tcp"),
      "ip" := Str("0.0.0.0"),
      "key" := Str(key),
      "signature_scheme" := Str("hmac-sha256")
    ]
  }

  /** The descriptor make_connection_file writes, for the random `key` it drew:
      the base fields updated with PORTS. */
  function MakeConnectionInfo(key: string): (cfg: ConnectionInfo)
    ensures cfg.Keys == DescriptorFields
    ensures cfg["transport"] == Str("tcp")
    ensures cfg["ip"] == Str("0.0.0.0")
    ensures cfg["key"] == Str(key)
    ensures cfg["signature_scheme"] == Str("hmac-sha256")
    ensures forall f :: f in PORTS ==> cfg[f] == PORTS[f]
  {
    BaseConfig(key) + PORTS
  }

  /** Exactly nine fields. */
  lemma DescriptorHasNineFields(key: string)
    ensures |MakeConnectionInfo(key)| == 9
  {
    BaseFieldCount();
    PortFieldCount();
    PortsAreDisjointFromBase(key);
    assert BaseFields * PortFields == {};
    assert |MakeConnectionInfo(key)| == |MakeConnectionInfo(key).Keys|;
  }

  // The field names are told apart by their length or by their first two letters.

  lemma BaseFieldCount()
    ensures |BaseFields| == 4
  {
    var s2: set<string> := {"transport"} + {"ip"};
    assert "ip"[0] != "transport"[0];
    var s3 := s2 + {"key"};
    assert "key"[0] != "transport"[0] && |"key"| != |"ip"|;
    var s4 := s3 + {"signature_scheme"};
    assert |"signature_scheme"| == 16;
    assert s4 == BaseFields;
  }

  lemma PortFieldCount()
    ensures |PortFields| == 5
  {
    var s2: set<string> := {"shell_port"} + {"iopub_port"};
    assert "shell_port"[0] != "iopub_port"[0];
    var s3 := s2 + {"stdin_port"};
    assert "stdin_port"[1] == 't' && "shell_port"[1] == 'h';
    var s4 := s3 + {"control_port"};
    assert |"control_port"| == 12;
    var s5 := s4 + {"hb_port"};
    assert |"hb_port"| == 7;
    assert s5 == PortFields;
  }

  /** Merging PORTS adds fields and overwrites none of the base ones. */
  lemma PortsAreDisjointFromBase(key: string)
    ensures BaseConfig(key).Keys == BaseFields && PORTS.Keys == PortFields
    ensures BaseFields !! PortFields
    ensures forall f :: f in BaseConfig(key) ==> MakeConnectionInfo(key)[f] == BaseConfig(key)[f]
  {
    assert |"transport"| == 9 && |"ip"| == 2 && |"key"| == 3 && |"signature_scheme"| == 16;
    assert "signature_scheme"[1] == 'i';
  }

  /** Different keys give different descriptors. */
  lemma KeyDeterminesDescriptor(key1: string, key2: string)
    ensures MakeConnectionInfo(key1) == MakeConnectionInfo(key2) <==> key1 == key2
  {
    if MakeConnectionInfo(key1) == MakeConnectionInfo(key2) {
      assert MakeConnectionInfo(key1)["key"] == MakeConnectionInfo(key2)["key"];
    }
  }

  /** `conn_info['ip'] = ip`: only the address field changes. */
  function WithIp(cfg: ConnectionInfo, ip: string): (r: ConnectionInfo)
    ensures r.Keys == cfg.Keys + {"ip"}
    ensures r["ip"] == Str(ip)
    ensures forall f :: f in cfg && f != "ip" ==> r[f] == cfg[f]
  {
    cfg["ip" := Str(ip)]
  }
}
