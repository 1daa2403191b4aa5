/** The classification of a symbol used by `Ref` or inside `Fn::Sub`. */
module References {

  /** The built-in pseudo parameters of CloudFormation: AWS::AccountId,
      AWS::NotificationARNs, AWS::NoValue, AWS::Partition, AWS::Region,
      AWS::StackId, AWS::StackName and AWS::URLSuffix. */
  datatype PseudoParameter =
    | AccountId
    | NotificationArns
    | NoValue
    | Partition
    | Region
    | StackId
    | StackName
    | UrlSuffix

  datatype Origin = PseudoParameter(pseudo: PseudoParameter) | Parameter | LogicalId

  datatype Reference = Reference(name: string, origin: Origin)
}
