/** `OperationUpdate` of `src/types/invocation.rs`; a string is the sequence of its UTF-8 bytes. */
module OperationUpdates {
  import opened Wrappers

  datatype OperationType = Execution | Context | Step | Wait | Callback | ChainedInvoke

  datatype OperationAction = Start | Succeed | Fail | Retry | Cancel

  datatype ErrorObject = ErrorObject(errorType: string, errorMessage: string, details: Option<string>)

  datatype ContextUpdateOptions = ContextUpdateOptions(replayChildren: Option<bool>)

  datatype StepUpdateOptions = StepUpdateOptions(nextAttemptDelaySeconds: Option<int>)

  datatype WaitUpdateOptions = WaitUpdateOptions(waitSeconds: Option<int>)

  datatype CallbackUpdateOptions = CallbackUpdateOptions(timeoutSeconds: Option<int>, heartbeatTimeoutSeconds: Option<int>)

  datatype ChainedInvokeUpdateOptions = ChainedInvokeUpdateOptions(functionName: string, tenantId: Option<string>)

  datatype OperationUpdate = OperationUpdate(
    id: string,
    parentId: Option<string>,
    name: Option<string>,
    operationType: OperationType,
    subType: Option<string>,
    action: OperationAction,
    payload: Option<string>,
    error: Option<ErrorObject>,
    contextOptions: Option<ContextUpdateOptions>,
    stepOptions: Option<StepUpdateOptions>,
    waitOptions: Option<WaitUpdateOptions>,
    callbackOptions: Option<CallbackUpdateOptions>,
    chainedInvokeOptions: Option<ChainedInvokeUpdateOptions>)
}
