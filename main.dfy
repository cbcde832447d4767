/** Application wiring: the command bus, which routes each command to the
    handler registered for the command's exact type, and `bootstrap_app`,
    which builds a bus whose one handler renames resources kept in a JSON
    file. */
module Main {
  import opened Wrappers
  import opened Domain
  import opened Repositories
  import opened UpdatingNameUseCase
  import opened JsonFileResources

  /** A command class, stood for by its name. The application has a single
      command class, so comparing names here is comparing classes there. */
  type CommandType = string

  const UpdateNameType: CommandType := "UpdateName"

  /** `type(cmd)` for the one command class of the application. */
  function TypeOf(cmd: UpdateName): CommandType {
    UpdateNameType
  }

  /** A registry from command type to handler. */
  class CommandBus<H> {
    var handlers: map<CommandType, H>

    /** A new bus has no handlers. */
    constructor ()
      ensures handlers == map[]
    {
      handlers := map[];
    }

    /** Routes `cmdType` to `handler`, replacing any earlier handler for it;
        other types keep their handlers. */
    method Register(cmdType: CommandType, handler: H)
      modifies this
      ensures handlers == old(handlers)[cmdType := handler]
    {
      handlers := handlers[cmdType := handler];
    }

    /** The lookup `dispatch` starts with: the handler for exactly this type,
        or KeyError. The registry is not changed. */
    method HandlerFor(cmdType: CommandType) returns (r: Result<H, KeyError<CommandType>>)
      ensures r.Failure? <==> cmdType !in handlers
      ensures r.Failure? ==> r.error == KeyError(cmdType)
      ensures r.Success? ==> r.value == handlers[cmdType]
    {
      if cmdType !in handlers {
        return Failure(KeyError(cmdType));
      }
      return Success(handlers[cmdType]);
    }
  }

  /** What a dispatch of `cmd` may change: the repository of the one handler
      registered for its type, and nothing when there is none. */
  function DispatchFrame(bus: CommandBus<UpdatingName>, cmd: UpdateName): set<object>
    reads bus
  {
    if TypeOf(cmd) in bus.handlers then {bus.handlers[TypeOf(cmd)].repo.Object()} else {}
  }

  /** Why a dispatch raised KeyError: no handler for the command's type, or
      the handler's `execute` raised it. */
  datatype DispatchError =
    | NoHandler(missing: KeyError<CommandType>)
    | HandlerFailed(failure: KeyError<Uuid>)

  /** `dispatch(cmd)`: look up the handler for `type(cmd)` and run its
      `execute` on `cmd`, once. With no handler it raises KeyError and
      nothing changes. */
  method Dispatch(bus: CommandBus<UpdatingName>, cmd: UpdateName) returns (outcome: Outcome<DispatchError>)
    requires TypeOf(cmd) in bus.handlers ==> bus.handlers[TypeOf(cmd)].repo.Valid()
    modifies DispatchFrame(bus, cmd)
    ensures bus.handlers == old(bus.handlers)
    ensures TypeOf(cmd) !in bus.handlers ==> outcome == Fail(NoHandler(KeyError(TypeOf(cmd))))
    ensures TypeOf(cmd) in bus.handlers ==>
      var repo := bus.handlers[TypeOf(cmd)].repo;
      && repo.Valid()
      && (repo.JsonFile? ==> repo.json.path == old(repo.json.path))
      && (repo.JsonFile? ==> repo.json.table.order == old(repo.json.table.order))
      && match ApplyUpdate(old(repo.Resources()), cmd)
         case Success(t) => outcome == Pass && repo.Resources() == t
         case Failure(e) => outcome == Fail(HandlerFailed(e)) && repo.Resources() == old(repo.Resources())
    ensures outcome.Fail? ==> unchanged(DispatchFrame(bus, cmd))
  {
    var handler := bus.HandlerFor(TypeOf(cmd));
    if handler.Failure? {
      return Fail(NoHandler(handler.error));
    }
    var executed := handler.value.Execute(cmd);
    if executed.Fail? {
      return Fail(HandlerFailed(executed.error));
    }
    return Pass;
  }

  /** What `bootstrap_app` returns; the read side (`list_resources`) is not
      part of this model. */
  class AppContext {
    const commandBus: CommandBus<UpdatingName>

    constructor (commandBus: CommandBus<UpdatingName>)
      ensures this.commandBus == commandBus
    {
      this.commandBus := commandBus;
    }
  }

  /** Opens the JSON-file repository at `jsonPath` and registers an
      `UpdatingName` handler over it for `UpdateName`, the only entry of the
      new bus. A load error propagates. */
  method BootstrapApp(jsonPath: Path, disk: Disk) returns (r: Result<AppContext, LoadError>)
    requires disk.Valid()
    ensures jsonPath !in disk.files ==> r == Failure(FileNotFound(jsonPath))
    ensures jsonPath in disk.files ==>
      var loaded := LoadItems(EmptyTable, disk.files[jsonPath]);
      && (r.Success? <==> loaded.error.None?)
      && (r.Failure? ==> r.error == loaded.error.value)
    ensures r.Success? ==>
      var bus := r.value.commandBus;
      && fresh(r.value) && fresh(bus)
      && bus.handlers.Keys == {UpdateNameType}
      && fresh(bus.handlers[UpdateNameType])
      && var repo := bus.handlers[UpdateNameType].repo;
      && repo.JsonFile? && fresh(repo.json)
      && repo.Valid() && repo.json.path == jsonPath
      && repo.json.table == LoadItems(EmptyTable, disk.files[jsonPath]).table
  {
    var commandBus := new CommandBus<UpdatingName>();
    var loadedRepo := Open(jsonPath, disk);
    if loadedRepo.Failure? {
      return Failure(loadedRepo.error);
    }
    var updateNameHandler := new UpdatingName(JsonFile(loadedRepo.value));
    commandBus.Register(UpdateNameType, updateNameHandler);
    var context := new AppContext(commandBus);
    return Success(context);
  }

  /** The integration scenario: open the repository at `source`, rename one
      resource through the use case, write to `target`, open a second
      repository on `target` and fetch the resource: it has the new name. */
  method RenameWriteAndReload(source: Path, target: Path, disk: Disk, input: UpdateName)
    returns (fetched: Resource)
    requires disk.Valid() && source in disk.files
    requires LoadItems(EmptyTable, disk.files[source]).error.None?
    requires input.id in LoadItems(EmptyTable, disk.files[source]).table.entries
    modifies disk
    ensures fetched.name == input.name
  {
    var loadedRepo := Open(source, disk);
    var repo := loadedRepo.value;
    var useCase := new UpdatingName(JsonFile(repo));
    var _ := useCase.Execute(input);
    var copy := ReopenAfterWrite(repo, target, disk);
    var got := copy.value.Get(input.id);
    fetched := got.value;
  }
}
