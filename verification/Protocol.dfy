/** The messages between the upload tool and the bootloader, and what the tool observes of a run. */
module Protocol {
  import opened Wrappers
  import opened Crc64

  datatype CanState =
    | NoCommunication
    | WaitForInfo
    | WaitForDataLoops
    | ReceivedLoopNumber
    | Received8BytesData
    | Received8BytesCrc
    | FinishedFinalValidation
    | FinishedTransferVectorTable
    | ValidatedVectorTable
    | CanError
    | ResetBoot
    | RunProgram

  /** `BootLeft` is not reported to anyone: the application has been started, and the bootloader is gone. */
  datatype BootState = BootWait | BootReset | BootRun | BootLoad | BootError | BootLeft

  datatype Action =
    | CmdToTransferProgram
    | CmdToResetBootProcess
    | CmdToRunProgram
    | CmdToGetBootloaderInfo
    | CmdToGetDataTransferInfo
    | CmdToGetVersionInfo

  datatype AckMessage =
    | ReceivedCmdToTransferProgram
    | ReceivedProgramInfo
    | ReceivedSubSectorData
    | ReceivedCrc
    | ReceivedVectorTable
    | ReceivedCrcOfVectorTable
    | ReceivedCmdToRunProgram
    | ReceivedCmdToResetBootProcess

  datatype StatusCode = ReceivedButNotProcessed | ReceivedAndInProcessing | ReceivedAndProcessed

  /** Frames from the tool to the bootloader. */
  datatype Frame =
    | Request(action: Action)
    | ProgramInfo(lenInBytes: nat, loops: nat)
    | LoopInfo(loop: nat)
    | Data(word: Word)
    | CrcSignature(crc: Word)

  /** What `wait_can_ack_msg` hands back: no acknowledgement in time, or one with its yes/no flag. */
  datatype AckReply = NoAck | No | Yes

  type States = (CanState, BootState)

  /** One observable step of the tool: a frame sent, or the outcome of a wait. */
  datatype Event =
    | Sent(frame: Frame)
    | AckWaited(message: AckMessage, status: StatusCode, reply: AckReply)
    | StatesRead(states: Option<States>)
    | LoopsRead(loops: Option<nat>)

  /** Everything that the bus may answer to one wait. */
  datatype Reply = Reply(ack: AckReply, states: Option<States>, loops: Option<nat>)

  /** An arbitrary bus: what each wait of the session will see, in order; after that it stays silent. */
  type Bus = seq<Reply>

  function Answer(bus: Bus, k: nat): Reply {
    if k < |bus| then bus[k] else Reply(NoAck, None, None)
  }

  /** The status that the caller of the upload read beforehand. */
  datatype BootloaderStatus = BootloaderStatus(can: Option<CanState>, boot: Option<BootState>, loops: Option<nat>)
}
