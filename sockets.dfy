/** Socket set-up with its integer sentinels (`create_socket`,
    `bind_and_listen_socket`). Each system call is represented by its
    result, given as a parameter. */
module Sockets {

  /** `create_socket(set_opts)`: `socketResult` is what `socket()` returned,
      `reuseOk` whether `setsockopt(SO_REUSEADDR)` succeeded (it is only
      called when `set_opts == 1`). A failed `setsockopt` is reported as 1. */
  function CreateSocket(setOpts: int, socketResult: int, reuseOk: bool): (fd: int)
    ensures fd == -1 <==> socketResult == -1
    ensures fd == 1 <==> socketResult == 1 || (socketResult != -1 && setOpts == 1 && !reuseOk)
    ensures socketResult != -1 && (setOpts != 1 || reuseOk) ==> fd == socketResult
  {
    if socketResult == -1 then -1
    else if setOpts == 1 && !reuseOk then 1
    else socketResult
  }

  /** `bind_and_listen_socket(socket_fd)`: a negative descriptor is passed
      through untouched; otherwise a failed `bind()` or `listen()` gives -1. */
  function BindAndListenSocket(socketFd: int, bindOk: bool, listenOk: bool): (fd: int)
    ensures socketFd < 0 ==> fd == socketFd
    ensures socketFd >= 0 ==> fd == if bindOk && listenOk then socketFd else -1
  {
    if socketFd < 0 then socketFd
    else if !bindOk then -1
    else if !listenOk then -1
    else socketFd
  }

  /** The results of the start-up system calls: `socket()`, `setsockopt()`,
      and `bind()` and `listen()` on whatever descriptor `create_socket`
      handed on. */
  datatype Startup = Startup(socketResult: int, reuseOk: bool, bindOk: bool, listenOk: bool)

  /** `bind_and_listen_socket(create_socket(1))`, the descriptor `main`
      serves. `socket()` returns -1 or a descriptor. Start-up fails exactly
      when `socket`, `bind` or `listen` fail: a failed `setsockopt` is not
      caught, since its sentinel 1 is then bound and served as a descriptor. */
  function ListeningFd(startup: Startup): (fd: int)
    requires startup.socketResult >= -1
    ensures fd < 0 <==> startup.socketResult == -1 || !startup.bindOk || !startup.listenOk
    ensures fd >= 0 ==> fd == if startup.reuseOk then startup.socketResult else 1
  {
    BindAndListenSocket(
      CreateSocket(1, startup.socketResult, startup.reuseOk),
      startup.bindOk, startup.listenOk)
  }
}
