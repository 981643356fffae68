/** The captured description of a device: device_profile.hpp. */
module Profiles {
  import opened Core

  datatype FieldCaps = FieldCaps(
    usagePage: U16, usageMin: U16, usageMax: U16,
    logicalMin: I32, logicalMax: I32,
    physicalMin: I32, physicalMax: I32,
    reportSize: U16, reportCount: U16,
    unit: U32, unitExponent: U32,
    isButton: bool, isAbsolute: bool, hasNull: bool)

  datatype ReportInfo = ReportInfo(reportId: Byte, byteLength: U16, fields: seq<FieldCaps>)

  datatype DeviceProfile = DeviceProfile(
    vendorId: U16, productId: U16, versionNumber: U16,
    manufacturer: string, product: string, serialNumber: string,
    usagePage: U16, usage: U16,
    inputReports: seq<ReportInfo>, outputReports: seq<ReportInfo>, featureReports: seq<ReportInfo>,
    reportDescriptor: seq<Byte>)

  /** The three kinds of report, which are also the three data main items. */
  datatype Kind = Input | Output | Feature
}
