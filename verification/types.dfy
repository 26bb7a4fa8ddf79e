/**
 The vocabulary shared by every component of the robot-model locator: the
 optional and result wrappers, the six resource types a caller may ask for,
 and the failures the locator raises.
 */
module Types {

  datatype Option<+T> = None | Some(value: T)

  /** The outcome of an operation that raises one of `Error` in the source. */
  datatype Result<+T> = Ok(value: T) | Err(error: Error)

  /** `ResourceType`: three shapes (open file, path, text) in two formats. */
  datatype ResourceType =
    | SdfFile | SdfPath | SdfString
    | UrdfFile | UrdfPath | UrdfString
  {
    predicate IsSdf() { SdfFile? || SdfPath? || SdfString? }
    predicate IsUrdf() { UrdfFile? || UrdfPath? || UrdfString? }
  }

  /** Every way the locator fails, one constructor per kind of failure: the
      module's own `raise` statements (`PathNotFound` for both directory checks of
      the environment setup, `UnexpectedResourceType` for both fall-throughs of the
      dispatcher), the errors of `os.listdir` (`RootNotListable`) and `open`
      (`CannotOpen`), and `ConversionFailed` for whatever the converter raises. */
  datatype Error =
      /** `os.listdir` on a models root that is missing or is not a directory */
    | RootNotListable(path: string)
      /** the robot is not in the catalog */
    | UnknownRobot(name: string)
      /** the robot's directory is not a directory (race guard) */
    | MissingDirectory(path: string)
      /** the walk did not find exactly one model file; carries what it found */
    | ModelCount(found: seq<string>)
      /** the resolved path ends in neither `.urdf` nor `.sdf` */
    | NoUrdfNorSdf(name: string)
      /** `open` on a path that does not name a regular file */
    | CannotOpen(path: string)
      /** the URDF to SDF converter cannot be imported */
    | ConversionUnavailable
      /** the external URDF to SDF converter raised; carries its message */
    | ConversionFailed(message: string)
      /** an URDF resource was asked of an SDF model */
    | UnsupportedConversion
      /** the fall-through `ValueError(resource_type)` of the dispatcher */
    | UnexpectedResourceType(resourceType: ResourceType)
      /** `setup_environment` could not find a directory it must add */
    | PathNotFound(path: string)
}
