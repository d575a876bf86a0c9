/** The web port of the application under test, set once the server is up. */
module PortProvider {
  import opened Wrappers

  newtype int32 = x: int | -0x8000_0000 <= x < 0x8000_0000

  datatype PortError = PortNotInitialized

  class SpringDefaultWebPortProvider {
    /** `_port`; zero means "not set". */
    var storedPort: int32

    constructor ()
      ensures storedPort == 0
    {
      storedPort := 0;
    }

    /** The getter: the stored port, or a failure while it is zero. Reading changes nothing. */
    method GetPort() returns (r: Result<int32, PortError>)
      ensures r.Success? <==> storedPort != 0
      ensures r.Success? ==> r.value == storedPort
      ensures r.Failure? ==> r.error == PortNotInitialized
    {
      if storedPort != 0 {
        r := Success(storedPort);
      } else {
        r := Failure(PortNotInitialized);
      }
    }

    /** The setter: the last value set wins, zero included. */
    method SetPort(value: int32)
      modifies this
      ensures storedPort == value
    {
      storedPort := value;
    }
  }

  /** A fresh provider fails, answers a port once set, and fails again once reset to zero. */
  method PortLifecycle(p: int32)
    requires p != 0
  {
    var provider := new SpringDefaultWebPortProvider();
    var r := provider.GetPort();
    assert r == Failure(PortNotInitialized);
    provider.SetPort(p);
    r := provider.GetPort();
    assert r == Success(p);
    r := provider.GetPort();
    assert r == Success(p);
    provider.SetPort(0);
    r := provider.GetPort();
    assert r.Failure?;
  }
}
