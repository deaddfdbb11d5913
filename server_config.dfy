/** The configuration a server instance records when it is constructed
    (server.py, Server.__init__): where to listen, how many worker threads to
    run, and how many connections the WSGI server may hold. */
module ServerConfig {

  /** `100 if 100 > threads else threads + 3`. */
  function ConnectionLimit(threads: int): (limit: int)
    ensures threads < 100 ==> limit == 100
    ensures threads >= 100 ==> limit == threads + 3
    ensures limit >= 100
    ensures limit > threads
  {
    if 100 > threads then 100 else threads + 3
  }

  function Max(a: int, b: int): int
  {
    if a >= b then a else b
  }

  /** The limit is `max(100, threads + 3)` except when `threads` is 98 or 99:
      there the code keeps 100 while the maximum would be `threads + 3`. */
  lemma LimitMatchesMaxIff(threads: int)
    ensures ConnectionLimit(threads) == Max(100, threads + 3) <==> !(98 <= threads <= 99)
  {
  }

  /** A witness of the difference: 98 threads get a limit of 100, not 101. */
  lemma LimitAtNinetyEight()
    ensures ConnectionLimit(98) == 100 && Max(100, 98 + 3) == 101
  {
  }

  /** The fields `Server.__init__` sets, with the same defaults. */
  class Server {
    var port: int
    var host: string
    var threads: int
    var limit: int

    constructor (port: int := 8000, host: string := "0.0.0.0", threads: int := 4)
      ensures this.port == port && this.host == host && this.threads == threads
      ensures limit == ConnectionLimit(threads)
      ensures limit >= 100 && limit > threads
    {
      this.port := port;
      this.host := host;
      this.threads := threads;
      this.limit := if 100 > threads then 100 else threads + 3;
    }
  }

  /** The example application's server, built with host "0.0.0.0", port
      5000 and the default thread count: four threads and 100 connections. */
  method ExampleServer() returns (s: Server)
    ensures s.port == 5000 && s.host == "0.0.0.0" && s.threads == 4 && s.limit == 100
  {
    s := new Server(host := "0.0.0.0", port := 5000);
  }
}
