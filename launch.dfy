/**
  launch: start a kernel container bound to a fresh connection file, learn the
  container's bridge address, and hand back the descriptor and its controller.

  The container as the runtime reports it after the first reload is a
  parameter, as is the random key of the descriptor.
*/
module Launch {
  import opened Wrappers
  import opened ConnectionFile
  import opened KernelManager

  datatype LaunchError =
    | ContainerNotFound   // the reload after starting raised NotFound
    | NoIpAddress         // "No IP address for docker container"

  /** The descriptor launch returns: the one written to the connection file,
      with the bridge address in place of the wildcard, or the launch error. */
  function LaunchDescriptor(key: string, started: Container): (r: Result<ConnectionInfo, LaunchError>)
    ensures !started.found ==> r == Err(ContainerNotFound)
    ensures started.found && started.bridgeIp == "" ==> r == Err(NoIpAddress)
    ensures r.Ok? <==> started.found && started.bridgeIp != ""
    ensures r.Ok? ==>
      && r.value.Keys == DescriptorFields
      && r.value["ip"] == Str(started.bridgeIp)
      && forall f :: f in DescriptorFields && f != "ip" ==> r.value[f] == MakeConnectionInfo(key)[f]
  {
    if !started.found then Err(ContainerNotFound)
    else if started.bridgeIp == "" then Err(NoIpAddress)
    else Ok(WithIp(MakeConnectionInfo(key), started.bridgeIp))
  }

  /** A successful launch has a real address in its descriptor and keeps the
      fixed fields and ports of the connection file. */
  lemma LaunchedDescriptorFields(key: string, started: Container)
    requires LaunchDescriptor(key, started).Ok?
    ensures var info := LaunchDescriptor(key, started).value;
      && |info| == 9
      && info["ip"] != Str("")
      && info["transport"] == Str("tcp")
      && info["key"] == Str(key)
      && info["signature_scheme"] == Str("hmac-sha256")
      && forall f :: f in PORTS ==> info[f] == PORTS[f]
  {
    DescriptorHasNineFields(key);
    PortsAreDisjointFromBase(key);
    var info := LaunchDescriptor(key, started).value;
    assert info.Keys == MakeConnectionInfo(key).Keys;
    assert forall f :: f in PORTS ==> f in DescriptorFields && f != "ip";
  }

  datatype Launched = Launched(info: ConnectionInfo, manager: DockerKernelManager)

  /** launch: either a descriptor and a controller owning the container and
      the connection-file directory, or an error and no controller. */
  method Launch(key: string, tmpdir: string, started: Container) returns (r: Result<Launched, LaunchError>)
    ensures r.Err? <==> LaunchDescriptor(key, started).Err?
    ensures r.Err? ==> r.error == LaunchDescriptor(key, started).error
    ensures r.Ok? ==>
      && r.value.info == LaunchDescriptor(key, started).value
      && fresh(r.value.manager)
      && r.value.manager.Valid()
      && r.value.manager.container == started
      && r.value.manager.tmpdir == tmpdir
      && r.value.manager.tmpdirPresent
      && r.value.manager.log == []
  {
    var connInfo := MakeConnectionInfo(key);
    if !started.found {
      return Err(ContainerNotFound);
    }
    var ip := started.bridgeIp;
    if ip == "" {
      return Err(NoIpAddress);
    }
    connInfo := WithIp(connInfo, ip);
    var manager := new DockerKernelManager(started, tmpdir);
    r := Ok(Launched(connInfo, manager));
  }
}
